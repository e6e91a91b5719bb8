/** `search_venues` and `search_artists`: a case-insensitive substring search on the name,
    or, with `searchby=area`, on the city and state. */
module Search {
  import opened Records
  import opened Text
  import opened Queries
  import opened Entries

  datatype SearchResult = SearchResult(count: nat, data: seq<Entry>)

  /** `request.form.get(key, '')`. */
  function FormValue(form: map<string, string>, key: string): string
  {
    if key in form then form[key] else ""
  }

  /** The city pattern of an area term: the text before the first comma. */
  function CityPattern(term: string): string
  {
    Split(term, ',')[0]
  }

  /** The state pattern of an area term: the text between the first and second commas,
      with its spaces removed. */
  function StatePattern(term: string): string
    requires ',' in term
  {
    RemoveSpaces(Split(term, ',')[1])
  }

  /** The records a search retrieves, in retrieval order; in area mode without a comma the
      state matches come first, then the city matches, and a record matching both twice. */
  function Matched(searchBy: string, term: string, ls: seq<Listing>): (r: seq<Listing>)
    ensures searchBy != "area" ==> forall l :: l in r <==> l in ls && ILike(l.name, term)
    ensures searchBy == "area" && ',' in term ==> forall l :: l in r <==>
      l in ls && ILike(l.state, StatePattern(term)) && ILike(l.city, CityPattern(term))
    ensures searchBy == "area" && ',' !in term ==> forall l :: l in r <==>
      l in ls && (ILike(l.state, term) || ILike(l.city, term))
  {
    if searchBy == "area" then
      if ',' in term then Where(ls, StateAndCityLike(StatePattern(term), CityPattern(term)))
      else Where(ls, StateLike(term)) + Where(ls, CityLike(term))
    else Where(ls, NameLike(term))
  }

  /** The search handler for either kind of record: the matches, each with its number of
      upcoming shows, and `count` the number of matches, duplicates included. */
  method SearchListings(role: Role, form: map<string, string>, ls: seq<Listing>, shows: seq<Show>, now: int)
    returns (r: SearchResult)
    ensures r.count == |r.data| == |Matched(FormValue(form, "searchby"), FormValue(form, "search_term"), ls)|
    ensures forall k :: 0 <= k < |r.data| ==>
      r.data[k] == EntryOf(Matched(FormValue(form, "searchby"), FormValue(form, "search_term"), ls)[k], role, shows, now)
  {
    var searchBy := FormValue(form, "searchby");
    var term := FormValue(form, "search_term");
    var matched := Matched(searchBy, term, ls);
    var data := ListEntries(matched, role, shows, now);
    r := SearchResult(|matched|, data);
  }

  /** `search_venues`. */
  method SearchVenues(form: map<string, string>, venues: seq<Venue>, shows: seq<Show>, now: int)
    returns (r: SearchResult)
    ensures r.count == |r.data|
      == |Matched(FormValue(form, "searchby"), FormValue(form, "search_term"), VenueListings(venues))|
    ensures forall k :: 0 <= k < |r.data| ==>
      r.data[k] == EntryOf(Matched(FormValue(form, "searchby"), FormValue(form, "search_term"),
                                   VenueListings(venues))[k], VenueRole, shows, now)
  {
    r := SearchListings(VenueRole, form, VenueListings(venues), shows, now);
  }

  /** `search_artists`. */
  method SearchArtists(form: map<string, string>, artists: seq<Artist>, shows: seq<Show>, now: int)
    returns (r: SearchResult)
    ensures r.count == |r.data|
      == |Matched(FormValue(form, "searchby"), FormValue(form, "search_term"), ArtistListings(artists))|
    ensures forall k :: 0 <= k < |r.data| ==>
      r.data[k] == EntryOf(Matched(FormValue(form, "searchby"), FormValue(form, "search_term"),
                                   ArtistListings(artists))[k], ArtistRole, shows, now)
  {
    r := SearchListings(ArtistRole, form, ArtistListings(artists), shows, now);
  }

  /** The first piece of `a + s` is `a` when `a` has no separator and `s` is empty or
      starts with one. */
  lemma FirstPiece(a: string, s: string, sep: char)
    requires sep !in a
    requires s == [] || s[0] == sep
    ensures Split(a + s, sep)[0] == a
  {
    if s == [] {
      assert a + s == a;
      SplitWithoutSep(a, sep);
    } else {
      assert s == [sep] + s[1..];
      assert a + s == a + [sep] + s[1..];
      SplitAtFirst(a, s[1..], sep);
    }
  }

  /** An area term `city,state[,...]` is read as the city pattern and the state pattern
      with its spaces removed; whatever follows a second comma is ignored. */
  lemma AreaTermFields(city: string, state: string, rest: string)
    requires ',' !in city && ',' !in state
    requires rest == [] || rest[0] == ','
    ensures ',' in city + "," + state + rest
    ensures CityPattern(city + "," + state + rest) == city
    ensures StatePattern(city + "," + state + rest) == RemoveSpaces(state)
  {
    var term := city + "," + state + rest;
    assert term == city + [','] + (state + rest);
    assert term[|city|] == ',';
    SplitAtFirst(city, state + rest, ',');
    FirstPiece(state, rest, ',');
  }

  /** The term "Boston, MA" searches for city "Boston" and state "MA". */
  lemma BostonTerm()
    ensures CityPattern("Boston, MA") == "Boston"
    ensures StatePattern("Boston, MA") == "MA"
  {
    assert "Boston, MA" == "Boston" + "," + " MA" + "";
    AreaTermFields("Boston", " MA", "");
    assert RemoveSpaces(" MA") == "MA";
  }

  /** In area mode without a comma, a record is listed once for a state match and once more
      for a city match, as often as it is stored. */
  lemma {:induction false} AreaWithoutCommaMultiplicity(term: string, ls: seq<Listing>, l: Listing)
    requires ',' !in term
    ensures multiset(Matched("area", term, ls))[l]
         == (if ILike(l.state, term) then multiset(ls)[l] else 0)
          + (if ILike(l.city, term) then multiset(ls)[l] else 0)
  {
    WhereMultiplicity(ls, StateLike(term), l);
    WhereMultiplicity(ls, CityLike(term), l);
  }

  /** Every string contains the empty pattern. */
  lemma EmptyPatternMatches(s: string)
    ensures ILike(s, "")
  {
    assert Lower("") == "";
  }

  /** A filter that admits every record keeps all of them, in order. */
  lemma {:induction false} WhereAdmitsAll(ls: seq<Listing>, f: ListingFilter)
    requires forall l :: l in ls ==> Admits(f, l)
    ensures Where(ls, f) == ls
  {
    if ls != [] {
      WhereAdmitsAll(ls[1..], f);
      assert ls == [ls[0]] + ls[1..];
    }
  }

  /** An empty term: a name search lists every record once, an area search lists every
      record twice (all of them as state matches, then all of them again as city matches). */
  lemma EmptyTerm(searchBy: string, ls: seq<Listing>)
    ensures searchBy != "area" ==> Matched(searchBy, "", ls) == ls
    ensures searchBy == "area" ==> Matched(searchBy, "", ls) == ls + ls
  {
    forall l | l in ls
      ensures Admits(NameLike(""), l) && Admits(StateLike(""), l) && Admits(CityLike(""), l)
    {
      EmptyPatternMatches(l.name);
      EmptyPatternMatches(l.state);
      EmptyPatternMatches(l.city);
    }
    WhereAdmitsAll(ls, NameLike(""));
    WhereAdmitsAll(ls, StateLike(""));
    WhereAdmitsAll(ls, CityLike(""));
  }
}
