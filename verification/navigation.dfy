/** The search bar of the navigation bar: it writes the `search` parameter,
    copies it back into the box, and signs the user out. */
module Navigation {
  import opened Text
  import opened Url
  import opened Entities
  import Catalog

  const HOME_PATH := "/"

  /** The parameters a search submit writes: only the trimmed text, or none for blank text. */
  function SearchParams(text: string): (p: Params)
    ensures Blank(text) <==> p == map[]
    ensures !Blank(text) ==> p.Keys == {SEARCH} && p[SEARCH] == Trim(text) && p[SEARCH] != ""
                             && Trim(p[SEARCH]) == p[SEARCH]
  {
    TrimIdempotent(text);
    if Blank(text) then map[]
    else
      var p := map[SEARCH := Trim(text)];
      assert SEARCH in p;
      p
  }

  /** The box text after the URL-to-box sync: a non-empty `search` parameter
      is copied in, otherwise the box keeps its text. */
  function SyncedBox(box: string, p: Params): string {
    if Truthy(Get(p, SEARCH)) then p[SEARCH] else box
  }

  /** Submitting, letting the URL sync the box, and submitting again writes the
      same parameters: once the sync runs on the submitted parameters, the box
      holds the trimmed text. */
  lemma ResubmitIsStable(text: string)
    ensures SyncedBox(text, SearchParams(text)) == if Blank(text) then text else Trim(text)
    ensures SearchParams(SyncedBox(text, SearchParams(text))) == SearchParams(text)
  {
    var p := SearchParams(text);
    if Blank(text) {
      assert p == map[] && !Truthy(Get(p, SEARCH));
    } else {
      var t := Trim(text);
      assert p == map[SEARCH := t] && Truthy(Get(p, SEARCH));
      assert SyncedBox(text, p) == t;
      TrimIdempotent(text);
      assert !Blank(t);
    }
  }

  /** A submitted search shows, on the catalog page, exactly the catalog entries
      whose title, description or channel contains the trimmed text ignoring
      case; a blank submit shows the whole catalog. */
  lemma SubmittedSearchSelects(all: seq<Video>, text: string)
    ensures Blank(text) ==> Catalog.FilterVideos(all, SearchParams(text)) == all
    ensures !Blank(text) ==>
      (forall v :: v in Catalog.FilterVideos(all, SearchParams(text))
                   <==> v in all && Catalog.SearchMatches(v, Lower(Trim(text))))
  {
    var p := SearchParams(text);
    if Blank(text) {
      assert p == map[];
      Catalog.NoActiveFilterShowsCatalog(all, p);
    } else {
      var t := Trim(text);
      assert p == map[SEARCH := t];
      assert t != "" && Lower(t) != "";
      assert Catalog.SearchActive(p) && !Catalog.CategoryActive(p) && !Catalog.TagActive(p);
      Catalog.FilterVideosMembership(all, p);
    }
  }

  /** The state the `Navbar` component owns or drives. */
  class Navbar {
    var searchQuery: string
    var params: Params
    /** The `isAuthenticated` flag the navigation bar clears on sign-out. */
    var isAuthenticated: bool
    /** The router location. */
    var path: string

    /** Mounting: the box starts empty and the sync effect runs once. */
    constructor (p: Params, authenticated: bool, location: string)
      ensures searchQuery == SyncedBox("", p) && params == p
      ensures isAuthenticated == authenticated && path == location
    {
      searchQuery, params := SyncedBox("", p), p;
      isAuthenticated, path := authenticated, location;
    }

    /** `handleSearch`, followed by the URL-to-box sync when the parameters
        changed: non-blank text becomes the only parameter, trimmed, and the box
        then shows it trimmed; blank text empties the parameters and leaves the
        box as typed. A submit that writes the parameters already in the URL
        changes nothing, so the sync does not run and the box keeps its text. */
    method Submit()
      modifies this`params, this`searchQuery
      ensures params == SearchParams(old(searchQuery))
      ensures searchQuery == if Blank(old(searchQuery)) || params == old(params) then old(searchQuery)
                             else Trim(old(searchQuery))
    {
      ResubmitIsStable(searchQuery);
      UrlChanged(SearchParams(searchQuery));
    }

    /** A keystroke in the box: the box takes the new text; text that is blank
        after trimming also empties the parameters at once. */
    method Type(value: string)
      modifies this`params, this`searchQuery
      ensures searchQuery == value
      ensures params == if Blank(value) then map[] else old(params)
    {
      searchQuery := value;
      if Blank(value) {
        UrlChanged(map[]);
      }
    }

    /** The URL's parameters are set (here or elsewhere): the sync effect runs
        only when they differ from the current ones. */
    method UrlChanged(p: Params)
      modifies this`params, this`searchQuery
      ensures params == p
      ensures searchQuery == if p != old(params) && Truthy(Get(p, SEARCH)) then p[SEARCH] else old(searchQuery)
    {
      if p != params {
        params := p;
        searchQuery := SyncedBox(searchQuery, p);
      }
    }

    /** `handleLogout`: signed out and back at the home page, whose URL has no
        query, so the parameters become empty; with no `search` parameter the
        sync leaves the box as it was. */
    method Logout()
      modifies this`isAuthenticated, this`path, this`params, this`searchQuery
      ensures !isAuthenticated && path == HOME_PATH
      ensures params == map[] && searchQuery == old(searchQuery)
    {
      isAuthenticated, path := false, HOME_PATH;
      UrlChanged(map[]);
    }
  }
}
