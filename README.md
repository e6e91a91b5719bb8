# Fyyur booking site: a Dafny model of its request handlers

Fyyur lists venues and artists and the shows that pair them. Its request handlers
(`app.py`) read and write three tables and build the pages from them:

- the recently-listed feed on the home page;
- the venues page, which groups venues by city and state;
- the venue and artist searches;
- the venue and artist pages, with past and upcoming shows;
- the create, edit and delete submissions.

The model keeps each table as a Dafny sequence in the database's retrieval order. The
handlers' query filters become datatypes (`Queries.ShowFilter`, `Queries.ListingFilter`)
with a selection function each. The current time is a parameter `now`.

Modules, one per part of `app.py`:

- `Records`: the rows and the `query.get` lookups.
- `Text`: the Python and SQL string operations the handlers rely on. These are `ILIKE`
  matching, `str.split`, `str.replace(' ', '')`, slicing and the `str()` of a tuple.
- `Queries`: the filter clauses and what they select.
- `Feed`: the home page feed, a bounded two-pointer merge of the artists and venues by
  descending id.
- `Areas`: the venues page.
- `Entries` and `Search`: the search handlers and their `num_upcoming_shows` entries.
- `ShowPages`: the venue and artist pages.
- `Store`: the write handlers, as methods of a `Store` class whose fields are the
  tables and the two id sequences. Its invariant is `Store.Consistent`:
  - ids are unique;
  - ids are below the next value of their sequence;
  - every show refers to a stored venue and a stored artist.

Each handler is one transaction. When a step raises (a missing form field, a lookup
that found nothing), the model returns a failure and leaves the state as it was.

Where the code differs from a natural reading of its design, the model follows the code:

- The search strips only space characters from the state part of an area term, not
  every kind of whitespace.
- The venues page keeps at most two characters of each state, because of the slice
  `[2:4]`. A venue whose state is longer than two characters is therefore in no group
  (`Areas.LongStateInNoGroup`).
- A comma-free area search concatenates two selections, so a venue matching both the
  state and the city is listed twice (`Search.AreaWithoutCommaMultiplicity`).

## Model

| member | source | states |
|---|---|---|
| Records.FindVenue | app.py:180 | `Venue.query.get`: a result is a stored venue with the requested id; there is no result exactly when no stored venue has that id |
| Records.FindArtist | app.py:333 | `Artist.query.get`: a result is a stored artist with the id; none exactly when no artist has it |
| Records.FindProfile | app.py:199 | the counterpart lookup of a show: a result is a stored profile with the id; none exactly when no profile has it |
| Text.Split | app.py:129 | `str.split`: at least one piece; two or more exactly when the separator occurs; no piece contains the separator |
| Text.JoinSplit | app.py:156-157 | joining the pieces of a split with the separator gives back the original string |
| Text.SplitWithoutSep | app.py:156 | a string without the separator splits into itself alone |
| Text.SplitAtFirst | app.py:156-157 | the first piece is the text before the first separator; the remaining pieces are the split of the text after it |
| Text.RemoveSpaces | app.py:157 | `replace(' ', '')`: no space remains; every other character keeps its number of occurrences; a string without spaces is unchanged; a single space becomes empty and a single other character stays |
| Text.RemoveSpacesAppend | app.py:157 | removing spaces from a concatenation removes them from each part and concatenates the results, so the kept characters keep their order |
| Text.SliceBound | app.py:130-131 | a Python slice bound: a bound in range is kept; a negative bound counts from the end; one before the start becomes 0 and one past the end becomes the length |
| Text.PySlice | app.py:130-131 | a Python slice is never longer than the string or the requested width; it is the plain subsequence when both bounds are in range, runs to `len + stop` for a negative stop such as `-1`, and runs to the end for a stop past the end such as `4` on a short piece |
| Text.ReprPlain | app.py:129 | the `repr` of a string with no quote, backslash, control character or comma is the string between single quotes |
| Queries.Select | app.py:196 | a show filter keeps exactly the stored shows it admits, each as many times as it is stored, and never more shows than are stored |
| Queries.ShowsPartition | app.py:196-208 | an entity's shows split into those before `now`, those after it and those exactly at it, with the counts adding up |
| Queries.Where | app.py:158 | a listing filter keeps exactly the stored records it admits and never more than are stored |
| Queries.WhereMultiplicity | app.py:160-161 | an admitted record appears in a selection as many times as it is stored; a rejected one does not appear |
| Feed.RecentlyListed | app.py:97-118 | given both tables as ordered by descending id, the feed is their bounded merge with ten entries or all of them if fewer, and is ordered by descending id |
| Feed.MergeFeed | app.py:102-117 | the three loops produce exactly the bounded merge, whatever the inputs |
| Feed.MergeFromLength | app.py:105-117 | from any pointer pair, the merge takes entries until the limit or until both lists are used up |
| Feed.MergeLength | app.py:105-117 | the feed holds min(limit, artists + venues) entries |
| Feed.OfKindAppend | app.py:107-117 | the artist (or venue) entries of a concatenation are those of its parts in order |
| Feed.KindsPartition | app.py:107-117 | every feed entry is an artist entry or a venue entry, and the counts add up |
| Feed.MergeReplay | app.py:105-117 | after any k entries of the feed, the rest is the merge resumed with the pointers at the numbers of artist and venue entries emitted so far |
| Feed.MergeFromArtistPrefix | app.py:107-108 | from a pointer pair, the artist entries are the next artists in their order |
| Feed.MergeFromVenuePrefix | app.py:110-111 | from a pointer pair, the venue entries are the next venues in their order |
| Feed.MergeTakesPrefixes | app.py:105-117 | the feed's artist entries are the first artists in order, its venue entries the first venues, and together they fill the feed |
| Feed.MergeRule | app.py:105-117 | each entry is the one the comparison picks, given the artists and venues taken before it |
| Feed.TieGoesToVenue | app.py:106-111 | with one artist and one venue of the same id and room for one entry, the feed lists the venue |
| Feed.MergeFromDescending | app.py:105-117 | from any pointer pair, merging id-descending lists gives non-increasing ids, none above the current artist or venue id |
| Feed.MergeDescending | app.py:100-117 | with both tables ordered by descending id, the feed is ordered by descending id |
| Entries.ListEntries | app.py:165-171 | one entry per listed record, in order, carrying its id, name and count of shows after `now` |
| Search.Matched | app.py:154-163 | the records an area search with a comma, an area search without one, or a name search admits, in terms of ILIKE on city, state or name |
| Search.SearchListings | app.py:150-176 | the result count equals the number of entries, which is the number of matched records; each entry is the matched record's id, name and upcoming-show count; absent form fields read as empty |
| Search.SearchVenues | app.py:150-176 | `search_venues`: the listing search over the venues, counting each venue's upcoming shows |
| Search.SearchArtists | app.py:303-329 | `search_artists`: the listing search over the artists, counting each artist's upcoming shows |
| Search.FirstPiece | app.py:156 | the first piece of a split is the text before the first separator |
| Search.AreaTermFields | app.py:155-157 | for a term made of a city, a comma, a state and an optional further comma part, the city pattern is the city and the state pattern is the state without spaces |
| Search.BostonTerm | app.py:155-158 | the term "Boston, MA" searches cities for "Boston" and states for "MA" |
| Search.AreaWithoutCommaMultiplicity | app.py:159-161 | a comma-free area search lists a stored record once for a state match plus once for a city match |
| Search.EmptyPatternMatches | app.py:158-163 | an empty pattern matches every text |
| Search.WhereAdmitsAll | app.py:158-163 | a filter that admits every record selects the whole table |
| Search.EmptyTerm | app.py:152-163 | an empty name search lists every record; an empty area search lists every record twice |
| Areas.ParsePlace | app.py:128-131 | the parsed state never holds more than two characters |
| Areas.ParsePlain | app.py:128-131 | for a plain city and state, the key's city is the city and its state is the first two characters of the state followed by the closing quote and parenthesis |
| Areas.ParseKeepsTwoStateChars | app.py:128-131 | for a plain city and a plain state of two or more characters, the key is the city and the first two characters of the state |
| Areas.StateOrderSnoc | app.py:132-135 | reading one more key appends its state to the dict's key order exactly when that state is new |
| Areas.CitiesInSnoc | app.py:132-135 | reading one more key adds its city to the city set of its state only |
| Areas.UnseenStateHasNoCities | app.py:132-135 | a state not yet in the dict has no cities |
| Areas.StateOrderDistinct | app.py:126-135 | the dict's states are distinct |
| Areas.StateOrderMembers | app.py:126-135 | a state is a key of the dict exactly when some venue's key has that state |
| Areas.CitiesInMembers | app.py:126-135 | a city is in a state's set exactly when some venue's key is that (city, state) |
| Areas.Rank | app.py:137 | the position of a state in the dict order: below the order's length exactly when the state is in it, and then the state stands at that position |
| Areas.RankOfElement | app.py:137 | the position of the state at index m of a distinct order is m |
| Areas.RecordPlace | app.py:132-135 | adding one key to the dict keeps it equal to the dict built from all keys read so far |
| Areas.CollectStates | app.py:126-135 | the dict's states are the venues' key states in first-seen order, and each state's city set is the set of cities with that key |
| Areas.StateGroups | app.py:138-147 | one group per city of a state, with distinct cities; each group lists exactly the venues whose city and state equal the group's, each with its upcoming-show count |
| Areas.EmitGroups | app.py:137-147 | the groups are exactly the dict's (state, city) pairs, without duplicates, in dict state order, each listing the venues stored under that pair |
| Areas.GroupByArea | app.py:124-148 | `venues`: the groups' (city, state) pairs are exactly the venues' parsed keys, each once, in first-seen state order; each group lists the venues stored under its pair |
| Areas.InGroupIffSameKey | app.py:139 | a venue with a plain city and a two-character state is in a group's selection exactly when the group's pair is its own city and state |
| Areas.PlainVenueInOneGroup | app.py:124-148 | a stored venue with a plain city and a two-character state lies in exactly one group, the one for its own city and state |
| Areas.LongStateInNoGroup | app.py:128-139 | a venue whose state has more than two characters is in no group's selection |
| ShowPages.Summarize | app.py:198-206 | the summary loop succeeds exactly when every show's counterpart is stored; then each summary carries the counterpart's id and the show's start time in show order; otherwise it fails at the first show whose counterpart is missing |
| ShowPages.ShowListsOf | app.py:196-223 | the past list summarises the entity's shows before `now`, the upcoming list those after it, and the counts are their lengths; a failure names a listed show whose counterpart is missing |
| ShowPages.ShowVenue | app.py:178-224 | `show_venue`: fails as not found exactly when no venue has the id; otherwise the page carries the venue's row and its past and upcoming show summaries by artist, with their counts |
| ShowPages.ShowArtist | app.py:331-375 | `show_artist`: the same for an artist, with shows summarised by venue |
| ShowPages.PastAndUpcomingExact | app.py:196-208 | a show is past exactly when it is the entity's and starts before `now`, upcoming exactly when it starts after `now`; a show starting at `now` is in neither list and no show is in both |
| Store.VenueFromForm | app.py:237-253 | a venue row is built exactly when every field the handler reads is present; it has the given id, every column equal to the submitted field of that name, the submitted genres, and seeks talent exactly when that field was sent |
| Store.ArtistFromForm | app.py:474-489 | an artist row is built exactly when every field the handler reads is present; it has the given id, every column equal to the submitted field of that name, the submitted genres, and seeks venues exactly when that field was sent |
| Store.ReplaceVenueLookup | app.py:435-449 | after an edit, a lookup of the edited id finds the new row when it found a row before, and a lookup of any other id finds exactly what it found before |
| Store.ReplaceArtistLookup | app.py:393-406 | the same for an edit of an artist |
| Store.DropVenue | app.py:279 | the remaining venues are exactly the stored venues with another id |
| Store.DropArtist | app.py:514 | the remaining artists are exactly the stored artists with another id |
| Store.DropVenueRemovesOne | app.py:279 | with unique ids, deleting a stored venue removes exactly one row |
| Store.DropVenueKeepsIdsUnique | app.py:279 | deleting a venue keeps the remaining ids unique |
| Store.DropVenueAbsent | app.py:279 | deleting an id no venue has leaves the table unchanged |
| Store.DropArtistRemovesOne | app.py:514 | with unique ids, deleting a stored artist removes exactly one row |
| Store.DropArtistKeepsIdsUnique | app.py:514 | deleting an artist keeps the remaining ids unique |
| Store.DropArtistAbsent | app.py:514 | deleting an id no artist has leaves the table unchanged |
| Store.OwnedSplit | app.py:277 | the shows deleted with an entity and the shows kept together make up the whole table |
| Store.InsertVenueKeepsConsistent | app.py:254-255 | inserting a venue under the next id and advancing the sequence keeps the store consistent |
| Store.InsertArtistKeepsConsistent | app.py:490-491 | inserting an artist under the next id and advancing the sequence keeps the store consistent |
| Store.ReplaceVenueKeepsConsistent | app.py:435-450 | overwriting a venue's columns under its own id keeps the store consistent |
| Store.ReplaceArtistKeepsConsistent | app.py:393-407 | overwriting an artist's columns under its own id keeps the store consistent |
| Store.DeleteVenueKeepsConsistent | app.py:276-280 | deleting a venue's shows and then the venue keeps the store consistent, so no show refers to a deleted venue |
| Store.DeleteArtistKeepsConsistent | app.py:511-515 | deleting an artist's shows and then the artist keeps the store consistent |
| Store.FindAfterAppendVenue | app.py:254-255 | after appending a venue under an unused id, its id finds it and every other id finds what it found before |
| Store.FindAfterAppendArtist | app.py:490-491 | after appending an artist under an unused id, its id finds it and every other id finds what it found before |
| Store.ReplaceKeepsVenueIds | app.py:435-449 | after an edit of a stored venue its id finds the new row, every other id finds the same row as before, and an id finds some venue after the edit exactly when it did before |
| Store.ReplaceKeepsArtistIds | app.py:393-406 | the same for an edit of an artist |
| Store.Store.constructor | app.py:31-76 | a new database has empty tables and is consistent |
| Store.Store.CreateVenue | app.py:234-267 | succeeds exactly when every field is present; the new venue is appended under the next id and found by it, and the sequence advances; on failure nothing changes; the other tables are never touched |
| Store.Store.CreateArtist | app.py:471-503 | the same for an artist |
| Store.Store.EditVenue | app.py:431-461 | succeeds exactly when the venue exists and every field is present; then the venue's row is the form's and every other row is unchanged; on failure nothing changes; the store stays consistent |
| Store.Store.EditArtist | app.py:389-419 | the same for an artist |
| Store.Store.DeleteVenue | app.py:270-291 | succeeds exactly when the venue exists; then it reports the venue's name, its shows and its one row are gone and all else stays; otherwise the show delete is rolled back, the name is empty and nothing changes |
| Store.Store.DeleteArtist | app.py:506-526 | the same for an artist and its shows |

## Left out

- Rendering, `flash` messages and redirects. The handlers' results are returned as values.
- The `datetime.now()` calls. Each handler reads the clock once per query and once per count. The model uses one `now` per request, so a show that starts between two reads is not modelled.
- `format_datetime` and `strftime`: start times are integers, and a show summary carries the unformatted start time.
- `ILIKE` wildcards and escapes. `%` and `_` in a search term are matched literally, and so is `\`, which the database treats as the escape character (the term `a\b` matches "ab" there). Case folding is ASCII only.
- `repr` escapes of non-printable characters other than `\n`, `\r` and `\t`.
- NULL columns: every column is a string or a boolean.
- Column length limits and other constraints the database engine enforces.
- The order of Python's set iteration: `Areas.StateGroups` emits cities in an arbitrary order, and every property holds for any order.
- The `artists` and `shows` list pages (app.py:295-301, 532-545), and the edit-form and show-form prefills. They only project columns and are not part of this model.
- `create_show_submission` (app.py:557-578): it parses a date with `strptime`, which is not part of this model.
- Delete path ids arrive as strings. The model takes an integer; a non-numeric id fails like a missing one.
- The error flash after a failed create or edit re-reads `request.form['name']`, which raises again when the name is missing.
- Sequence values consumed by failed inserts: the model advances the id only on success. An insert fails only on a missing field, before the database is reached.
- The `ORDER BY id DESC` of `index` (app.py:100-101) is done by the database. `Feed.RecentlyListed` takes both query results already in that order, as its precondition states, and does not sort.
- Concurrent requests: each handler is one atomic step on the `Store`.
- The Alembic migrations: the tables are the ones `app.py` declares.
- Feed.MergeFeed: the handler re-counts the query results on every loop test. The model counts the sequences once.
