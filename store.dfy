/** The write handlers: create, edit and delete of venues and artists. The database is a
    `Store` object whose tables are sequences; each handler is one transaction, which
    either commits all its changes or, when a step raises, rolls all of them back. */
module Store {
  import opened Records
  import opened Queries

  /** A submitted form: the first value of each field, and every value of `genres`. */
  datatype Form = Form(fields: map<string, string>, genres: seq<string>)

  /** The fields a venue submission reads with `request.form[...]`. */
  const VenueFields: set<string> :=
    {"name", "city", "state", "address", "phone", "image_link", "facebook_link", "website", "seeking_description"}

  /** The fields an artist submission reads with `request.form[...]`. */
  const ArtistFields: set<string> :=
    {"name", "city", "state", "phone", "image_link", "facebook_link", "website", "seeking_description"}

  /** The venue row a create or edit submission writes, or None when a field the handler
      reads is missing (the KeyError that makes it roll back). */
  function VenueFromForm(id: int, form: Form): (r: Option<Venue>)
    ensures r.Some? <==> VenueFields <= form.fields.Keys
    ensures r.Some? ==> r.value.id == id && r.value.genres == form.genres
    ensures r.Some? ==> (r.value.seekingTalent <==> "seeking_talent" in form.fields)
    ensures r.Some? ==> r.value.name == form.fields["name"] && r.value.city == form.fields["city"]
                        && r.value.state == form.fields["state"] && r.value.address == form.fields["address"]
                        && r.value.phone == form.fields["phone"] && r.value.imageLink == form.fields["image_link"]
                        && r.value.facebookLink == form.fields["facebook_link"]
                        && r.value.website == form.fields["website"]
                        && r.value.seekingDescription == form.fields["seeking_description"]
  {
    if VenueFields <= form.fields.Keys then
      var f := form.fields;
      Some(Venue(id, f["name"], f["city"], f["state"], f["address"], f["phone"], f["image_link"],
                 f["facebook_link"], form.genres, f["website"], "seeking_talent" in f, f["seeking_description"]))
    else None
  }

  /** The artist row a create or edit submission writes, or None when a field is missing. */
  function ArtistFromForm(id: int, form: Form): (r: Option<Artist>)
    ensures r.Some? <==> ArtistFields <= form.fields.Keys
    ensures r.Some? ==> r.value.id == id && r.value.genres == form.genres
    ensures r.Some? ==> (r.value.seekingVenue <==> "seeking_venue" in form.fields)
    ensures r.Some? ==> r.value.name == form.fields["name"] && r.value.city == form.fields["city"]
                        && r.value.state == form.fields["state"] && r.value.phone == form.fields["phone"]
                        && r.value.imageLink == form.fields["image_link"]
                        && r.value.facebookLink == form.fields["facebook_link"]
                        && r.value.website == form.fields["website"]
                        && r.value.seekingDescription == form.fields["seeking_description"]
  {
    if ArtistFields <= form.fields.Keys then
      var f := form.fields;
      Some(Artist(id, f["name"], f["city"], f["state"], f["phone"], form.genres, f["image_link"],
                  f["facebook_link"], f["website"], "seeking_venue" in f, f["seeking_description"]))
    else None
  }

  predicate VenueIdsUnique(vs: seq<Venue>)
  {
    forall i, j :: 0 <= i < j < |vs| ==> vs[i].id != vs[j].id
  }

  predicate ArtistIdsUnique(artists: seq<Artist>)
  {
    forall i, j :: 0 <= i < j < |artists| ==> artists[i].id != artists[j].id
  }

  /** The venues with every row of id `nv.id` replaced by `nv`; `ReplaceVenueLookup` states
      what a lookup then finds. */
  function ReplaceVenue(vs: seq<Venue>, nv: Venue): seq<Venue>
  {
    seq(|vs|, k requires 0 <= k < |vs| => if vs[k].id == nv.id then nv else vs[k])
  }

  function ReplaceArtist(artists: seq<Artist>, na: Artist): seq<Artist>
  {
    seq(|artists|, k requires 0 <= k < |artists| => if artists[k].id == na.id then na else artists[k])
  }

  /** `db.session.delete(venue)`: the venues without the row of that id. */
  function DropVenue(vs: seq<Venue>, id: int): (r: seq<Venue>)
    ensures forall v :: v in r <==> v in vs && v.id != id
    ensures |r| <= |vs|
  {
    if vs == [] then []
    else
      assert vs == [vs[0]] + vs[1..];
      (if vs[0].id == id then [] else [vs[0]]) + DropVenue(vs[1..], id)
  }

  function DropArtist(artists: seq<Artist>, id: int): (r: seq<Artist>)
    ensures forall a :: a in r <==> a in artists && a.id != id
    ensures |r| <= |artists|
  {
    if artists == [] then []
    else
      assert artists == [artists[0]] + artists[1..];
      (if artists[0].id == id then [] else [artists[0]]) + DropArtist(artists[1..], id)
  }

  /** With unique ids, deleting a stored venue removes exactly one row. */
  lemma {:induction false} DropVenueRemovesOne(vs: seq<Venue>, id: int)
    requires VenueIdsUnique(vs)
    requires FindVenue(vs, id).Some?
    ensures |DropVenue(vs, id)| == |vs| - 1
  {
    if vs[0].id != id {
      DropVenueRemovesOne(vs[1..], id);
    } else {
      assert forall v :: v in vs[1..] ==> v.id != id;
      DropVenueAbsent(vs[1..], id);
    }
  }

  /** Deleting keeps the other rows in their order, so their ids stay unique. */
  lemma {:induction false} DropVenueKeepsIdsUnique(vs: seq<Venue>, id: int)
    requires VenueIdsUnique(vs)
    ensures VenueIdsUnique(DropVenue(vs, id))
  {
    if vs != [] {
      DropVenueKeepsIdsUnique(vs[1..], id);
      var rest := DropVenue(vs[1..], id);
      forall v | v in rest ensures v.id != vs[0].id {
        var k :| 0 <= k < |vs[1..]| && vs[1..][k] == v;
        assert vs[k + 1] == v;
      }
    }
  }

  lemma {:induction false} DropVenueAbsent(vs: seq<Venue>, id: int)
    requires forall v :: v in vs ==> v.id != id
    ensures DropVenue(vs, id) == vs
  {
    if vs != [] {
      assert vs[0] in vs;
      DropVenueAbsent(vs[1..], id);
      assert vs == [vs[0]] + vs[1..];
    }
  }

  lemma {:induction false} DropArtistRemovesOne(artists: seq<Artist>, id: int)
    requires ArtistIdsUnique(artists)
    requires FindArtist(artists, id).Some?
    ensures |DropArtist(artists, id)| == |artists| - 1
  {
    if artists[0].id != id {
      DropArtistRemovesOne(artists[1..], id);
    } else {
      assert forall a :: a in artists[1..] ==> a.id != id;
      DropArtistAbsent(artists[1..], id);
    }
  }

  lemma {:induction false} DropArtistKeepsIdsUnique(artists: seq<Artist>, id: int)
    requires ArtistIdsUnique(artists)
    ensures ArtistIdsUnique(DropArtist(artists, id))
  {
    if artists != [] {
      DropArtistKeepsIdsUnique(artists[1..], id);
      var rest := DropArtist(artists[1..], id);
      forall a | a in rest ensures a.id != artists[0].id {
        var k :| 0 <= k < |artists[1..]| && artists[1..][k] == a;
        assert artists[k + 1] == a;
      }
    }
  }

  lemma {:induction false} DropArtistAbsent(artists: seq<Artist>, id: int)
    requires forall a :: a in artists ==> a.id != id
    ensures DropArtist(artists, id) == artists
  {
    if artists != [] {
      assert artists[0] in artists;
      DropArtistAbsent(artists[1..], id);
      assert artists == [artists[0]] + artists[1..];
    }
  }

  /** The shows of an entity and the shows of all others together are all the shows. */
  lemma {:induction false} OwnedSplit(shows: seq<Show>, role: Role, id: int)
    ensures |Select(shows, OwnedBy(role, id))| + |Select(shows, NotOwnedBy(role, id))| == |shows|
  {
    if shows != [] {
      OwnedSplit(shows[1..], role, id);
    }
  }

  /** Primary keys are unique and below their sequence's next value, and every show refers
      to a stored artist and a stored venue. */
  predicate Consistent(venues: seq<Venue>, artists: seq<Artist>, shows: seq<Show>, nextVenueId: int, nextArtistId: int)
  {
    && VenueIdsUnique(venues)
    && ArtistIdsUnique(artists)
    && (forall v :: v in venues ==> v.id < nextVenueId)
    && (forall a :: a in artists ==> a.id < nextArtistId)
    && (forall s :: s in shows ==> FindVenue(venues, s.venueId).Some? && FindArtist(artists, s.artistId).Some?)
  }

  lemma InsertVenueKeepsConsistent(venues: seq<Venue>, artists: seq<Artist>, shows: seq<Show>, n: int, m: int, nv: Venue)
    requires Consistent(venues, artists, shows, n, m)
    requires nv.id == n
    ensures Consistent(venues + [nv], artists, shows, n + 1, m)
    ensures FindVenue(venues + [nv], n) == Some(nv)
  {
    FindAfterAppendVenue(venues, nv);
  }

  lemma InsertArtistKeepsConsistent(venues: seq<Venue>, artists: seq<Artist>, shows: seq<Show>, n: int, m: int, na: Artist)
    requires Consistent(venues, artists, shows, n, m)
    requires na.id == m
    ensures Consistent(venues, artists + [na], shows, n, m + 1)
    ensures FindArtist(artists + [na], m) == Some(na)
  {
    FindAfterAppendArtist(artists, na);
  }

  lemma ReplaceVenueKeepsConsistent(venues: seq<Venue>, artists: seq<Artist>, shows: seq<Show>, n: int, m: int, nv: Venue)
    requires Consistent(venues, artists, shows, n, m)
    requires FindVenue(venues, nv.id).Some?
    ensures Consistent(ReplaceVenue(venues, nv), artists, shows, n, m)
    ensures FindVenue(ReplaceVenue(venues, nv), nv.id) == Some(nv)
  {
    ReplaceKeepsVenueIds(venues, nv);
    var r := ReplaceVenue(venues, nv);
    forall v | v in r ensures v.id < n {
      var k :| 0 <= k < |r| && r[k] == v;
      assert venues[k] in venues;
    }
  }

  lemma ReplaceArtistKeepsConsistent(venues: seq<Venue>, artists: seq<Artist>, shows: seq<Show>, n: int, m: int, na: Artist)
    requires Consistent(venues, artists, shows, n, m)
    requires FindArtist(artists, na.id).Some?
    ensures Consistent(venues, ReplaceArtist(artists, na), shows, n, m)
    ensures FindArtist(ReplaceArtist(artists, na), na.id) == Some(na)
  {
    ReplaceKeepsArtistIds(artists, na);
    var r := ReplaceArtist(artists, na);
    forall a | a in r ensures a.id < m {
      var k :| 0 <= k < |r| && r[k] == a;
      assert artists[k] in artists;
    }
  }

  lemma DeleteVenueKeepsConsistent(venues: seq<Venue>, artists: seq<Artist>, shows: seq<Show>, n: int, m: int, id: int)
    requires Consistent(venues, artists, shows, n, m)
    requires FindVenue(venues, id).Some?
    ensures Consistent(DropVenue(venues, id), artists, Select(shows, NotOwnedBy(VenueRole, id)), n, m)
    ensures |DropVenue(venues, id)| == |venues| - 1
  {
    DropVenueRemovesOne(venues, id);
    DropVenueKeepsIdsUnique(venues, id);
    var r := DropVenue(venues, id);
    forall s | s in Select(shows, NotOwnedBy(VenueRole, id))
      ensures FindVenue(r, s.venueId).Some?
    {
      var v := FindVenue(venues, s.venueId).value;
      assert v in r;
    }
  }

  lemma DeleteArtistKeepsConsistent(venues: seq<Venue>, artists: seq<Artist>, shows: seq<Show>, n: int, m: int, id: int)
    requires Consistent(venues, artists, shows, n, m)
    requires FindArtist(artists, id).Some?
    ensures Consistent(venues, DropArtist(artists, id), Select(shows, NotOwnedBy(ArtistRole, id)), n, m)
    ensures |DropArtist(artists, id)| == |artists| - 1
  {
    DropArtistRemovesOne(artists, id);
    DropArtistKeepsIdsUnique(artists, id);
    var r := DropArtist(artists, id);
    forall s | s in Select(shows, NotOwnedBy(ArtistRole, id))
      ensures FindArtist(r, s.artistId).Some?
    {
      var a := FindArtist(artists, s.artistId).value;
      assert a in r;
    }
  }

  class Store {
    var venues: seq<Venue>
    var artists: seq<Artist>
    var shows: seq<Show>
    /** The next value of the Venue and Artist id sequences. */
    var nextVenueId: int
    var nextArtistId: int

    ghost predicate Valid()
      reads this
    {
      Consistent(venues, artists, shows, nextVenueId, nextArtistId)
    }

    constructor ()
      ensures Valid()
      ensures venues == [] && artists == [] && shows == []
    {
      venues := [];
      artists := [];
      shows := [];
      nextVenueId := 1;
      nextArtistId := 1;
    }

    /** `create_venue_submission`: insert the form's venue under the next id, or change
        nothing when a field is missing. */
    method CreateVenue(form: Form) returns (ok: bool)
      requires Valid()
      modifies this
      ensures Valid()
      ensures ok <==> VenueFields <= form.fields.Keys
      ensures ok ==> venues == old(venues) + [VenueFromForm(old(nextVenueId), form).value]
      ensures ok ==> FindVenue(venues, old(nextVenueId)) == VenueFromForm(old(nextVenueId), form)
      ensures ok ==> nextVenueId == old(nextVenueId) + 1
      ensures !ok ==> venues == old(venues) && nextVenueId == old(nextVenueId)
      ensures artists == old(artists) && shows == old(shows) && nextArtistId == old(nextArtistId)
    {
      var venue := VenueFromForm(nextVenueId, form);
      if venue.None? {
        return false;
      }
      InsertVenueKeepsConsistent(venues, artists, shows, nextVenueId, nextArtistId, venue.value);
      venues := venues + [venue.value];
      nextVenueId := nextVenueId + 1;
      ok := true;
    }

    /** `create_artist_submission`. */
    method CreateArtist(form: Form) returns (ok: bool)
      requires Valid()
      modifies this
      ensures Valid()
      ensures ok <==> ArtistFields <= form.fields.Keys
      ensures ok ==> artists == old(artists) + [ArtistFromForm(old(nextArtistId), form).value]
      ensures ok ==> FindArtist(artists, old(nextArtistId)) == ArtistFromForm(old(nextArtistId), form)
      ensures ok ==> nextArtistId == old(nextArtistId) + 1
      ensures !ok ==> artists == old(artists) && nextArtistId == old(nextArtistId)
      ensures venues == old(venues) && shows == old(shows) && nextVenueId == old(nextVenueId)
    {
      var artist := ArtistFromForm(nextArtistId, form);
      if artist.None? {
        return false;
      }
      InsertArtistKeepsConsistent(venues, artists, shows, nextVenueId, nextArtistId, artist.value);
      artists := artists + [artist.value];
      nextArtistId := nextArtistId + 1;
      ok := true;
    }

    /** `edit_venue_submission`: overwrite every column of the venue from the form, or
        change nothing when the venue is missing or a field is missing. */
    method EditVenue(id: int, form: Form) returns (ok: bool)
      requires Valid()
      modifies this
      ensures Valid()
      ensures ok <==> FindVenue(old(venues), id).Some? && VenueFields <= form.fields.Keys
      ensures ok ==> venues == ReplaceVenue(old(venues), VenueFromForm(id, form).value)
      ensures ok ==> FindVenue(venues, id) == VenueFromForm(id, form)
      ensures !ok ==> venues == old(venues)
      ensures artists == old(artists) && shows == old(shows)
      ensures nextVenueId == old(nextVenueId) && nextArtistId == old(nextArtistId)
    {
      var venue := FindVenue(venues, id);
      var updated := VenueFromForm(id, form);
      if venue.None? || updated.None? {
        return false;
      }
      ReplaceVenueKeepsConsistent(venues, artists, shows, nextVenueId, nextArtistId, updated.value);
      venues := ReplaceVenue(venues, updated.value);
      ok := true;
    }

    /** `edit_artist_submission`. */
    method EditArtist(id: int, form: Form) returns (ok: bool)
      requires Valid()
      modifies this
      ensures Valid()
      ensures ok <==> FindArtist(old(artists), id).Some? && ArtistFields <= form.fields.Keys
      ensures ok ==> artists == ReplaceArtist(old(artists), ArtistFromForm(id, form).value)
      ensures ok ==> FindArtist(artists, id) == ArtistFromForm(id, form)
      ensures !ok ==> artists == old(artists)
      ensures venues == old(venues) && shows == old(shows)
      ensures nextVenueId == old(nextVenueId) && nextArtistId == old(nextArtistId)
    {
      var artist := FindArtist(artists, id);
      var updated := ArtistFromForm(id, form);
      if artist.None? || updated.None? {
        return false;
      }
      ReplaceArtistKeepsConsistent(venues, artists, shows, nextVenueId, nextArtistId, updated.value);
      artists := ReplaceArtist(artists, updated.value);
      ok := true;
    }

    /** `delete_venue`: delete the venue's shows, then the venue. When no venue has the id,
        reading its name raises and the show delete is rolled back; `name` stays empty. */
    method DeleteVenue(id: int) returns (ok: bool, name: string)
      requires Valid()
      modifies this
      ensures Valid()
      ensures ok <==> FindVenue(old(venues), id).Some?
      ensures ok ==> name == FindVenue(old(venues), id).value.name
      ensures ok ==> shows == Select(old(shows), NotOwnedBy(VenueRole, id))
      ensures ok ==> venues == DropVenue(old(venues), id)
      ensures ok ==> |venues| == |old(venues)| - 1
      ensures ok ==> |shows| == |old(shows)| - |Select(old(shows), OwnedBy(VenueRole, id))|
      ensures !ok ==> name == "" && venues == old(venues) && shows == old(shows)
      ensures artists == old(artists)
      ensures nextVenueId == old(nextVenueId) && nextArtistId == old(nextArtistId)
    {
      name := "";
      var snapshot := shows;
      shows := Select(shows, NotOwnedBy(VenueRole, id));
      var venue := FindVenue(venues, id);
      if venue.None? {
        shows := snapshot;
        return false, name;
      }
      name := venue.value.name;
      DeleteVenueKeepsConsistent(venues, artists, snapshot, nextVenueId, nextArtistId, id);
      OwnedSplit(snapshot, VenueRole, id);
      venues := DropVenue(venues, id);
      ok := true;
    }

    /** `delete_artist`: delete the artist's shows, then the artist, or roll back. */
    method DeleteArtist(id: int) returns (ok: bool, name: string)
      requires Valid()
      modifies this
      ensures Valid()
      ensures ok <==> FindArtist(old(artists), id).Some?
      ensures ok ==> name == FindArtist(old(artists), id).value.name
      ensures ok ==> shows == Select(old(shows), NotOwnedBy(ArtistRole, id))
      ensures ok ==> artists == DropArtist(old(artists), id)
      ensures ok ==> |artists| == |old(artists)| - 1
      ensures ok ==> |shows| == |old(shows)| - |Select(old(shows), OwnedBy(ArtistRole, id))|
      ensures !ok ==> name == "" && artists == old(artists) && shows == old(shows)
      ensures venues == old(venues)
      ensures nextVenueId == old(nextVenueId) && nextArtistId == old(nextArtistId)
    {
      name := "";
      var snapshot := shows;
      shows := Select(shows, NotOwnedBy(ArtistRole, id));
      var artist := FindArtist(artists, id);
      if artist.None? {
        shows := snapshot;
        return false, name;
      }
      name := artist.value.name;
      DeleteArtistKeepsConsistent(venues, artists, snapshot, nextVenueId, nextArtistId, id);
      OwnedSplit(snapshot, ArtistRole, id);
      artists := DropArtist(artists, id);
      ok := true;
    }
  }

  /** A row appended under an id no stored row has is what a lookup of that id finds, and
      lookups of the other ids are unaffected. */
  lemma {:induction false} FindAfterAppendVenue(vs: seq<Venue>, nv: Venue)
    requires forall v :: v in vs ==> v.id != nv.id
    ensures FindVenue(vs + [nv], nv.id) == Some(nv)
    ensures forall id :: id != nv.id ==> FindVenue(vs + [nv], id) == FindVenue(vs, id)
  {
    if vs != [] {
      assert vs[0] in vs;
      assert forall v :: v in vs[1..] ==> v in vs;
      FindAfterAppendVenue(vs[1..], nv);
      assert (vs + [nv])[1..] == vs[1..] + [nv];
    }
  }

  lemma {:induction false} FindAfterAppendArtist(artists: seq<Artist>, na: Artist)
    requires forall a :: a in artists ==> a.id != na.id
    ensures FindArtist(artists + [na], na.id) == Some(na)
    ensures forall id :: id != na.id ==> FindArtist(artists + [na], id) == FindArtist(artists, id)
  {
    if artists != [] {
      assert artists[0] in artists;
      assert forall a :: a in artists[1..] ==> a in artists;
      FindAfterAppendArtist(artists[1..], na);
      assert (artists + [na])[1..] == artists[1..] + [na];
    }
  }

  /** After an overwrite, a lookup of the overwritten id finds the new row when it found a
      row before, and a lookup of any other id finds what it found before. */
  lemma {:induction false} ReplaceVenueLookup(vs: seq<Venue>, nv: Venue, id: int)
    ensures FindVenue(ReplaceVenue(vs, nv), id)
         == if id == nv.id && FindVenue(vs, id).Some? then Some(nv) else FindVenue(vs, id)
  {
    if vs != [] {
      assert ReplaceVenue(vs, nv)[1..] == ReplaceVenue(vs[1..], nv);
      ReplaceVenueLookup(vs[1..], nv, id);
    }
  }

  lemma {:induction false} ReplaceArtistLookup(artists: seq<Artist>, na: Artist, id: int)
    ensures FindArtist(ReplaceArtist(artists, na), id)
         == if id == na.id && FindArtist(artists, id).Some? then Some(na) else FindArtist(artists, id)
  {
    if artists != [] {
      assert ReplaceArtist(artists, na)[1..] == ReplaceArtist(artists[1..], na);
      ReplaceArtistLookup(artists[1..], na, id);
    }
  }

  /** An overwrite keeps every id: the overwritten id finds the new row, every other id
      finds what it found before, and the ids that find a row are the same. */
  lemma ReplaceKeepsVenueIds(vs: seq<Venue>, nv: Venue)
    ensures FindVenue(vs, nv.id).Some? ==> FindVenue(ReplaceVenue(vs, nv), nv.id) == Some(nv)
    ensures forall id :: id != nv.id ==> FindVenue(ReplaceVenue(vs, nv), id) == FindVenue(vs, id)
    ensures forall id :: FindVenue(ReplaceVenue(vs, nv), id).Some? <==> FindVenue(vs, id).Some?
  {
    forall id
      ensures FindVenue(ReplaceVenue(vs, nv), id)
           == if id == nv.id && FindVenue(vs, id).Some? then Some(nv) else FindVenue(vs, id)
    {
      ReplaceVenueLookup(vs, nv, id);
    }
  }

  lemma ReplaceKeepsArtistIds(artists: seq<Artist>, na: Artist)
    ensures FindArtist(artists, na.id).Some? ==> FindArtist(ReplaceArtist(artists, na), na.id) == Some(na)
    ensures forall id :: id != na.id ==> FindArtist(ReplaceArtist(artists, na), id) == FindArtist(artists, id)
    ensures forall id :: FindArtist(ReplaceArtist(artists, na), id).Some? <==> FindArtist(artists, id).Some?
  {
    forall id
      ensures FindArtist(ReplaceArtist(artists, na), id)
           == if id == na.id && FindArtist(artists, id).Some? then Some(na) else FindArtist(artists, id)
    {
      ReplaceArtistLookup(artists, na, id);
    }
  }
}
