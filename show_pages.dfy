/** The venue and artist pages: the entity's columns plus its shows split into past and
    upcoming around the time `now`, each show summarised by the entity on its other side. */
module ShowPages {
  import opened Records
  import opened Queries

  /** One `past_shows` / `upcoming_shows` entry: the other side's id, name and image
      link, and the start time (an integer here; the page formats it as text). */
  datatype ShowSummary = ShowSummary(
    counterpartId: int,
    counterpartName: string,
    counterpartImageLink: string,
    startTime: int)

  datatype ShowLists = ShowLists(
    pastShows: seq<ShowSummary>,
    upcomingShows: seq<ShowSummary>,
    pastShowsCount: nat,
    upcomingShowsCount: nat)

  datatype VenuePage = VenuePage(venue: Venue, shows: ShowLists)
  datatype ArtistPage = ArtistPage(artist: Artist, shows: ShowLists)

  /** Why a page cannot be built: the handler dereferences a lookup that found nothing. */
  datatype PageError =
    | EntityNotFound(id: int)
    | CounterpartNotFound(showId: int, counterpartId: int)

  datatype PageResult<T> = Page(page: T) | Failed(error: PageError)

  function Summary(s: Show, p: Profile): ShowSummary
  {
    ShowSummary(p.id, p.name, p.imageLink, s.startTime)
  }

  /** Every show's other side is among `profiles`. */
  predicate CounterpartsPresent(shows: seq<Show>, role: Role, profiles: seq<Profile>)
  {
    forall s :: s in shows ==> FindProfile(profiles, Counterpart(s, role)).Some?
  }

  /** The summaries of `shows`, in their order. */
  function Summaries(shows: seq<Show>, role: Role, profiles: seq<Profile>): seq<ShowSummary>
    requires CounterpartsPresent(shows, role, profiles)
  {
    seq(|shows|, k requires 0 <= k < |shows| =>
      Summary(shows[k], FindProfile(profiles, Counterpart(shows[k], role)).value))
  }

  /** One loop of `show_venue` / `show_artist`: look up each show's other side and append
      its summary; the first show whose other side is missing makes the handler fail. */
  method Summarize(shows: seq<Show>, role: Role, profiles: seq<Profile>)
    returns (r: PageResult<seq<ShowSummary>>)
    ensures r.Page? <==> CounterpartsPresent(shows, role, profiles)
    ensures r.Page? ==> r.page == Summaries(shows, role, profiles)
    ensures r.Page? ==> forall k :: 0 <= k < |shows| ==>
      r.page[k].counterpartId == Counterpart(shows[k], role) && r.page[k].startTime == shows[k].startTime
    ensures r.Failed? ==> exists k :: (0 <= k < |shows|
      && CounterpartsPresent(shows[..k], role, profiles)
      && FindProfile(profiles, Counterpart(shows[k], role)).None?
      && r.error == CounterpartNotFound(shows[k].id, Counterpart(shows[k], role)))
  {
    var list: seq<ShowSummary> := [];
    var i := 0;
    while i < |shows|
      invariant 0 <= i <= |shows|
      invariant CounterpartsPresent(shows[..i], role, profiles)
      invariant list == Summaries(shows[..i], role, profiles)
    {
      var p := FindProfile(profiles, Counterpart(shows[i], role));
      if p.None? {
        return Failed(CounterpartNotFound(shows[i].id, Counterpart(shows[i], role)));
      }
      assert shows[..i + 1] == shows[..i] + [shows[i]];
      list := list + [Summary(shows[i], p.value)];
      i := i + 1;
    }
    assert shows[..i] == shows;
    return Page(list);
  }

  /** The entity's shows strictly before `now`, in retrieval order. */
  function Past(shows: seq<Show>, role: Role, id: int, now: int): seq<Show>
  {
    Select(shows, PastOf(role, id, now))
  }

  /** The entity's shows strictly after `now`, in retrieval order. */
  function Upcoming(shows: seq<Show>, role: Role, id: int, now: int): seq<Show>
  {
    Select(shows, UpcomingOf(role, id, now))
  }

  /** Both show lists of an entity can be summarised. */
  predicate Summarizable(shows: seq<Show>, role: Role, id: int, profiles: seq<Profile>, now: int)
  {
    CounterpartsPresent(Past(shows, role, id, now), role, profiles)
    && CounterpartsPresent(Upcoming(shows, role, id, now), role, profiles)
  }

  /** The show lists of a page: the past list, then the upcoming list, with their counts. */
  method ShowListsOf(role: Role, id: int, shows: seq<Show>, profiles: seq<Profile>, now: int)
    returns (r: PageResult<ShowLists>)
    ensures r.Page? <==> Summarizable(shows, role, id, profiles, now)
    ensures r.Page? ==> r.page.pastShows == Summaries(Past(shows, role, id, now), role, profiles)
    ensures r.Page? ==> r.page.upcomingShows == Summaries(Upcoming(shows, role, id, now), role, profiles)
    ensures r.Page? ==> r.page.pastShowsCount == |Past(shows, role, id, now)|
    ensures r.Page? ==> r.page.upcomingShowsCount == UpcomingCount(shows, role, id, now)
    ensures r.Failed? ==> exists s :: (s in Past(shows, role, id, now) + Upcoming(shows, role, id, now)
      && FindProfile(profiles, Counterpart(s, role)).None?
      && r.error == CounterpartNotFound(s.id, Counterpart(s, role)))
  {
    var past := Past(shows, role, id, now);
    var pastList := Summarize(past, role, profiles);
    if pastList.Failed? {
      return Failed(pastList.error);
    }
    var upcoming := Upcoming(shows, role, id, now);
    var upcomingList := Summarize(upcoming, role, profiles);
    if upcomingList.Failed? {
      return Failed(upcomingList.error);
    }
    r := Page(ShowLists(pastList.page, upcomingList.page, |pastList.page|, |upcomingList.page|));
  }

  /** `show_venue`: the venue's columns and its shows, summarised by artist. */
  method ShowVenue(venueId: int, venues: seq<Venue>, artists: seq<Artist>, shows: seq<Show>, now: int)
    returns (r: PageResult<VenuePage>)
    ensures r == Failed(EntityNotFound(venueId)) <==> FindVenue(venues, venueId).None?
    ensures r.Page? <==> (FindVenue(venues, venueId).Some?
                        && Summarizable(shows, VenueRole, venueId, ArtistProfiles(artists), now))
    ensures r.Page? ==> r.page.venue == FindVenue(venues, venueId).value
    ensures r.Page? ==> r.page.shows.pastShows
                        == Summaries(Past(shows, VenueRole, venueId, now), VenueRole, ArtistProfiles(artists))
    ensures r.Page? ==> r.page.shows.upcomingShows
                        == Summaries(Upcoming(shows, VenueRole, venueId, now), VenueRole, ArtistProfiles(artists))
    ensures r.Page? ==> r.page.shows.pastShowsCount == |Past(shows, VenueRole, venueId, now)|
    ensures r.Page? ==> r.page.shows.upcomingShowsCount == UpcomingCount(shows, VenueRole, venueId, now)
  {
    var venue := FindVenue(venues, venueId);
    if venue.None? {
      return Failed(EntityNotFound(venueId));
    }
    var lists := ShowListsOf(VenueRole, venueId, shows, ArtistProfiles(artists), now);
    if lists.Failed? {
      return Failed(lists.error);
    }
    r := Page(VenuePage(venue.value, lists.page));
  }

  /** `show_artist`: the artist's columns and its shows, summarised by venue. */
  method ShowArtist(artistId: int, venues: seq<Venue>, artists: seq<Artist>, shows: seq<Show>, now: int)
    returns (r: PageResult<ArtistPage>)
    ensures r == Failed(EntityNotFound(artistId)) <==> FindArtist(artists, artistId).None?
    ensures r.Page? <==> (FindArtist(artists, artistId).Some?
                        && Summarizable(shows, ArtistRole, artistId, VenueProfiles(venues), now))
    ensures r.Page? ==> r.page.artist == FindArtist(artists, artistId).value
    ensures r.Page? ==> r.page.shows.pastShows
                        == Summaries(Past(shows, ArtistRole, artistId, now), ArtistRole, VenueProfiles(venues))
    ensures r.Page? ==> r.page.shows.upcomingShows
                        == Summaries(Upcoming(shows, ArtistRole, artistId, now), ArtistRole, VenueProfiles(venues))
    ensures r.Page? ==> r.page.shows.pastShowsCount == |Past(shows, ArtistRole, artistId, now)|
    ensures r.Page? ==> r.page.shows.upcomingShowsCount == UpcomingCount(shows, ArtistRole, artistId, now)
  {
    var artist := FindArtist(artists, artistId);
    if artist.None? {
      return Failed(EntityNotFound(artistId));
    }
    var lists := ShowListsOf(ArtistRole, artistId, shows, VenueProfiles(venues), now);
    if lists.Failed? {
      return Failed(lists.error);
    }
    r := Page(ArtistPage(artist.value, lists.page));
  }

  /** The past list holds exactly the entity's shows before `now`, the upcoming list exactly
      those after it; a show starting at `now` is in neither. */
  lemma PastAndUpcomingExact(shows: seq<Show>, role: Role, id: int, now: int, s: Show)
    ensures s in Past(shows, role, id, now) <==> s in shows && Owner(s, role) == id && s.startTime < now
    ensures s in Upcoming(shows, role, id, now) <==> s in shows && Owner(s, role) == id && s.startTime > now
    ensures s !in Past(shows, role, id, now) || s !in Upcoming(shows, role, id, now)
  {
  }
}
