/** The three tables of the booking site and the small projections of them that the
    route handlers work with. The database is replaced by sequences of these records,
    in the order the database returns them; times are integers. */
module Records {

  datatype Option<T> = None | Some(value: T)

  /** A row of the Venue table. */
  datatype Venue = Venue(
    id: int,
    name: string,
    city: string,
    state: string,
    address: string,
    phone: string,
    imageLink: string,
    facebookLink: string,
    genres: seq<string>,
    website: string,
    seekingTalent: bool,
    seekingDescription: string)

  /** A row of the Artist table. */
  datatype Artist = Artist(
    id: int,
    name: string,
    city: string,
    state: string,
    phone: string,
    genres: seq<string>,
    imageLink: string,
    facebookLink: string,
    website: string,
    seekingVenue: bool,
    seekingDescription: string)

  /** A row of the Show table: one artist playing one venue at one time. */
  datatype Show = Show(id: int, artistId: int, venueId: int, startTime: int)

  /** Which side of a show a page or a count is about. */
  datatype Role = VenueRole | ArtistRole

  /** The id of the entity in `role` that owns the show. */
  function Owner(s: Show, role: Role): int
  {
    match role
    case VenueRole => s.venueId
    case ArtistRole => s.artistId
  }

  /** The id of the entity on the other side of the show. */
  function Counterpart(s: Show, role: Role): int
  {
    match role
    case VenueRole => s.artistId
    case ArtistRole => s.venueId
  }

  /** The columns the listing and search queries look at. */
  datatype Listing = Listing(id: int, name: string, city: string, state: string)

  /** The columns a show summary takes from the other side of the show. */
  datatype Profile = Profile(id: int, name: string, imageLink: string)

  function VenueListing(v: Venue): Listing
  {
    Listing(v.id, v.name, v.city, v.state)
  }

  function ArtistListing(a: Artist): Listing
  {
    Listing(a.id, a.name, a.city, a.state)
  }

  function VenueListings(venues: seq<Venue>): seq<Listing>
  {
    seq(|venues|, i requires 0 <= i < |venues| => VenueListing(venues[i]))
  }

  function ArtistListings(artists: seq<Artist>): seq<Listing>
  {
    seq(|artists|, i requires 0 <= i < |artists| => ArtistListing(artists[i]))
  }

  function VenueProfiles(venues: seq<Venue>): seq<Profile>
  {
    seq(|venues|, i requires 0 <= i < |venues| => Profile(venues[i].id, venues[i].name, venues[i].imageLink))
  }

  function ArtistProfiles(artists: seq<Artist>): seq<Profile>
  {
    seq(|artists|, i requires 0 <= i < |artists| => Profile(artists[i].id, artists[i].name, artists[i].imageLink))
  }

  /** `Model.query.get(id)`: the row with that primary key, if any. */
  function FindVenue(venues: seq<Venue>, id: int): (r: Option<Venue>)
    ensures r.Some? ==> r.value in venues && r.value.id == id
    ensures r.None? <==> forall v :: v in venues ==> v.id != id
  {
    if venues == [] then None
    else if venues[0].id == id then Some(venues[0])
    else FindVenue(venues[1..], id)
  }

  function FindArtist(artists: seq<Artist>, id: int): (r: Option<Artist>)
    ensures r.Some? ==> r.value in artists && r.value.id == id
    ensures r.None? <==> forall a :: a in artists ==> a.id != id
  {
    if artists == [] then None
    else if artists[0].id == id then Some(artists[0])
    else FindArtist(artists[1..], id)
  }

  function FindProfile(ps: seq<Profile>, id: int): (r: Option<Profile>)
    ensures r.Some? ==> r.value in ps && r.value.id == id
    ensures r.None? <==> forall p :: p in ps ==> p.id != id
  {
    if ps == [] then None
    else if ps[0].id == id then Some(ps[0])
    else FindProfile(ps[1..], id)
  }
}
