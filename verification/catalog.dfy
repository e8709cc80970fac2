/** The catalog page: the client-side filter driven by the URL parameters, the
    single-flight catalog fetch, and the handlers that rewrite the parameters. */
module Catalog {
  import opened Wrappers
  import opened Text
  import opened Seqs
  import opened Url
  import opened Entities

  const ALL := "All"
  const FETCH_ERROR := "Failed to fetch videos"

  /** An optional field, lower-cased, contains the query; a missing field never matches. */
  predicate FieldContains(field: Option<string>, lowerQuery: string) {
    field.Some? && Contains(Lower(field.value), lowerQuery)
  }

  /** The search predicate, for an already lower-cased query. */
  predicate SearchMatches(v: Video, lowerQuery: string) {
    FieldContains(v.title, lowerQuery) || FieldContains(v.description, lowerQuery)
    || FieldContains(v.channelName, lowerQuery)
  }

  /** The category predicate: the category, or some tag, equals the parameter ignoring case. */
  predicate CategoryMatches(v: Video, category: string) {
    (v.category.Some? && Lower(v.category.value) == Lower(category))
    || (v.tags.Some? && exists t :: t in v.tags.value && Lower(t) == Lower(category))
  }

  /** The tag predicate: some tag contains the parameter ignoring case; no tags, no match. */
  predicate TagMatches(v: Video, tag: string) {
    v.tags.Some? && exists t :: t in v.tags.value && Contains(Lower(t), Lower(tag))
  }

  function BySearch(lowerQuery: string): Video -> bool {
    v => SearchMatches(v, lowerQuery)
  }

  function ByCategory(category: string): Video -> bool {
    v => CategoryMatches(v, category)
  }

  function ByTag(tag: string): Video -> bool {
    v => TagMatches(v, tag)
  }

  /** The `search` parameter lower-cased, or none when it is absent. */
  function SearchQuery(p: Params): Option<string> {
    var q := Get(p, SEARCH);
    if q.Some? then Some(Lower(q.value)) else None
  }

  predicate SearchActive(p: Params) {
    Truthy(SearchQuery(p))
  }

  predicate CategoryActive(p: Params) {
    Truthy(Get(p, CATEGORY)) && p[CATEGORY] != ALL
  }

  predicate TagActive(p: Params) {
    Truthy(Get(p, TAG))
  }

  /** `filterVideos`: the three filters applied one after the other, each only
      when its parameter is active. */
  function FilterVideos(all: seq<Video>, p: Params): (r: seq<Video>)
    ensures |r| <= |all|
  {
    var afterSearch := if SearchActive(p) then Filter(all, BySearch(SearchQuery(p).value)) else all;
    var afterCategory := if CategoryActive(p) then Filter(afterSearch, ByCategory(p[CATEGORY])) else afterSearch;
    if TagActive(p) then Filter(afterCategory, ByTag(p[TAG])) else afterCategory
  }

  /** The reference condition: a video passes every active predicate. */
  predicate PassesFilters(v: Video, p: Params) {
    && (SearchActive(p) ==> SearchMatches(v, Lower(p[SEARCH])))
    && (CategoryActive(p) ==> CategoryMatches(v, p[CATEGORY]))
    && (TagActive(p) ==> TagMatches(v, p[TAG]))
  }

  /** A video is shown exactly when it is in the catalog and passes every active predicate. */
  lemma FilterVideosMembership(all: seq<Video>, p: Params)
    ensures forall v :: v in FilterVideos(all, p) <==> v in all && PassesFilters(v, p)
  {
  }

  /** The reference condition as a predicate value. */
  function Passing(p: Params): Video -> bool {
    v => PassesFilters(v, p)
  }

  /** The chain of up to three filters is one filter by the reference
      condition: the shown list holds exactly the passing catalog entries,
      each with all of its copies, in catalog order. */
  lemma FilterVideosIsOneFilter(all: seq<Video>, p: Params)
    ensures FilterVideos(all, p) == Filter(all, Passing(p))
  {
    var c1 := (v: Video) => SearchActive(p) ==> SearchMatches(v, Lower(p[SEARCH]));
    var c12 := (v: Video) => c1(v) && (CategoryActive(p) ==> CategoryMatches(v, p[CATEGORY]));
    var afterSearch := if SearchActive(p) then Filter(all, BySearch(SearchQuery(p).value)) else all;
    var afterCategory := if CategoryActive(p) then Filter(afterSearch, ByCategory(p[CATEGORY])) else afterSearch;
    if SearchActive(p) {
      FilterSameOn(all, BySearch(SearchQuery(p).value), c1);
    } else {
      FilterKeepsAll(all, c1);
    }
    assert afterSearch == Filter(all, c1);
    if CategoryActive(p) {
      FilterFuse(all, c1, ByCategory(p[CATEGORY]), c12);
    } else {
      FilterSameOn(all, c1, c12);
    }
    assert afterCategory == Filter(all, c12);
    if TagActive(p) {
      FilterFuse(all, c12, ByTag(p[TAG]), Passing(p));
    } else {
      FilterSameOn(all, c12, Passing(p));
    }
  }

  /** The shown list keeps the catalog's order. */
  lemma FilterVideosIsSubsequence(all: seq<Video>, p: Params)
    ensures IsSubsequence(FilterVideos(all, p), all)
  {
    var afterSearch := if SearchActive(p) then Filter(all, BySearch(SearchQuery(p).value)) else all;
    var afterCategory := if CategoryActive(p) then Filter(afterSearch, ByCategory(p[CATEGORY])) else afterSearch;
    if SearchActive(p) {
      FilterIsSubsequence(all, BySearch(SearchQuery(p).value));
    } else {
      SubsequenceReflexive(all);
    }
    if CategoryActive(p) {
      FilterIsSubsequence(afterSearch, ByCategory(p[CATEGORY]));
      SubsequenceTransitive(afterCategory, afterSearch, all);
    }
    if TagActive(p) {
      FilterIsSubsequence(afterCategory, ByTag(p[TAG]));
      SubsequenceTransitive(FilterVideos(all, p), afterCategory, all);
    }
  }

  /** With no active parameter the whole catalog is shown, as it is. */
  lemma NoActiveFilterShowsCatalog(all: seq<Video>, p: Params)
    requires SEARCH !in p || p[SEARCH] == ""
    requires CATEGORY !in p || p[CATEGORY] == "" || p[CATEGORY] == ALL
    requires TAG !in p || p[TAG] == ""
    ensures FilterVideos(all, p) == all
  {
  }

  /** Filtering the shown list again with the same parameters changes nothing. */
  lemma FilterVideosIdempotent(all: seq<Video>, p: Params)
    ensures FilterVideos(FilterVideos(all, p), p) == FilterVideos(all, p)
  {
    var r := FilterVideos(all, p);
    FilterVideosMembership(all, p);
    if SearchActive(p) {
      FilterKeepsAll(r, BySearch(SearchQuery(p).value));
    }
    if CategoryActive(p) {
      FilterKeepsAll(r, ByCategory(p[CATEGORY]));
    }
    if TagActive(p) {
      FilterKeepsAll(r, ByTag(p[TAG]));
    }
  }

  /** The category and tag predicates ignore the case of the parameter. */
  lemma PredicatesIgnoreParameterCase(v: Video, a: string, b: string)
    requires Lower(a) == Lower(b)
    ensures CategoryMatches(v, a) == CategoryMatches(v, b)
    ensures TagMatches(v, a) == TagMatches(v, b)
  {
  }

  /** The parameters `handleCategoryChange` writes. */
  function CategoryParams(category: string): Params {
    if category == ALL then map[] else map[CATEGORY := category]
  }

  /** After a category click the list shows all of the catalog for "All", and
      otherwise exactly the catalog entries of that category, search and tag dropped. */
  lemma CategoryClickSelects(all: seq<Video>, category: string)
    ensures category == ALL ==> FilterVideos(all, CategoryParams(category)) == all
    ensures category != ALL && category != "" ==>
      forall v :: v in FilterVideos(all, CategoryParams(category)) <==> v in all && CategoryMatches(v, category)
  {
    FilterVideosMembership(all, CategoryParams(category));
  }

  /** After a tag click the list shows exactly the catalog entries with a matching tag. */
  lemma TagClickSelects(all: seq<Video>, tag: string)
    requires tag != ""
    ensures forall v :: v in FilterVideos(all, map[TAG := tag]) <==> v in all && TagMatches(v, tag)
  {
    FilterVideosMembership(all, map[TAG := tag]);
  }

  /** The state of the catalog page (`Home`). */
  class Home {
    var allVideos: seq<Video>
    var filteredVideos: seq<Video>
    var loading: bool
    var error: Option<string>
    var params: Params
    var selectedCategory: string
    /** The `isRequesting` ref: a catalog fetch is outstanding. */
    var isRequesting: bool
    /** The number of catalog fetches issued and not yet settled. */
    ghost var pending: nat

    /** The shown list is always the filter of the catalog by the current
        parameters; a present category parameter is the selected category; at
        most one fetch is outstanding, and while it is the page is loading. */
    ghost predicate Valid()
      reads this
    {
      && filteredVideos == FilterVideos(allVideos, params)
      && (Truthy(Get(params, CATEGORY)) ==> selectedCategory == params[CATEGORY])
      && pending <= 1 && (isRequesting <==> pending == 1)
      && (isRequesting ==> loading)
    }

    /** Mounting with the URL's parameters, before the first fetch. */
    constructor (p: Params)
      ensures Valid()
      ensures allVideos == [] && filteredVideos == [] && loading && error == None && params == p
      ensures selectedCategory == if Truthy(Get(p, CATEGORY)) then p[CATEGORY] else ""
      ensures !isRequesting && pending == 0
    {
      allVideos, loading, error, params := [], true, None, p;
      selectedCategory := if Truthy(Get(p, CATEGORY)) then p[CATEGORY] else "";
      filteredVideos := FilterVideos([], p);
      isRequesting, pending := false, 0;
    }

    /** `fetchVideos` up to its request: dropped while another is outstanding;
        otherwise the error is cleared and the page is loading. */
    method BeginFetch() returns (issued: bool)
      requires Valid()
      modifies this
      ensures Valid()
      ensures issued == !old(isRequesting)
      ensures !issued ==> unchanged(this)
      ensures issued ==> isRequesting && pending == 1 && loading && error == None
      ensures allVideos == old(allVideos) && filteredVideos == old(filteredVideos)
      ensures params == old(params) && selectedCategory == old(selectedCategory)
    {
      if isRequesting {
        return false;
      }
      isRequesting, pending := true, pending + 1;
      loading, error := true, None;
      issued := true;
    }

    /** `fetchVideos` after its request settles: success stores the catalog and
        the shown list follows; failure keeps the catalog and records the error.
        Loading ends and the flag is cleared either way. */
    method CompleteFetch(response: Response<seq<Video>>)
      requires Valid() && pending == 1
      modifies this
      ensures Valid() && !loading && !isRequesting && pending == 0
      ensures allVideos == if response.Success? then response.data else old(allVideos)
      ensures error == if response.Success? then old(error) else Some(FETCH_ERROR)
      ensures params == old(params) && selectedCategory == old(selectedCategory)
    {
      if response.Success? {
        allVideos := response.data;
        ParamsChanged();
      } else {
        error := Some(FETCH_ERROR);
      }
      loading, isRequesting, pending := false, false, pending - 1;
    }

    /** The effect that follows a change of the parameters or of the catalog:
        a present category parameter becomes the selected one, and the list is re-filtered. */
    method ParamsChanged()
      modifies this`selectedCategory, this`filteredVideos
      ensures selectedCategory == if Truthy(Get(params, CATEGORY)) then params[CATEGORY] else old(selectedCategory)
      ensures filteredVideos == FilterVideos(allVideos, params)
    {
      var category := Get(params, CATEGORY);
      if Truthy(category) {
        selectedCategory := category.value;
      }
      filteredVideos := FilterVideos(allVideos, params);
    }

    /** The URL's parameters were rewritten elsewhere (search bar, side menu). */
    method UrlChanged(p: Params)
      requires Valid()
      modifies this
      ensures Valid() && params == p
      ensures selectedCategory == if Truthy(Get(p, CATEGORY)) then p[CATEGORY] else old(selectedCategory)
      ensures allVideos == old(allVideos) && loading == old(loading) && error == old(error)
      ensures isRequesting == old(isRequesting) && pending == old(pending)
    {
      params := p;
      ParamsChanged();
    }

    /** `handleCategoryChange`: "All" empties the parameters, any other
        category makes it the only parameter. */
    method CategoryChange(category: string)
      requires Valid()
      modifies this
      ensures Valid()
      ensures selectedCategory == category && params == CategoryParams(category)
      ensures allVideos == old(allVideos) && loading == old(loading) && error == old(error)
      ensures isRequesting == old(isRequesting) && pending == old(pending)
    {
      selectedCategory := category;
      params := CategoryParams(category);
      ParamsChanged();
    }

    /** `handleTagClick`: the tag becomes the only parameter; the selected
        category is left as it was. */
    method TagClick(tag: string)
      requires Valid()
      modifies this
      ensures Valid()
      ensures params == map[TAG := tag] && selectedCategory == old(selectedCategory)
      ensures allVideos == old(allVideos) && loading == old(loading) && error == old(error)
      ensures isRequesting == old(isRequesting) && pending == old(pending)
    {
      params := map[TAG := tag];
      ParamsChanged();
    }
  }
}
