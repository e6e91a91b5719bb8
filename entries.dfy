/** The `{"id", "name", "num_upcoming_shows"}` entries that the search results and the
    venues-by-area page list. */
module Entries {
  import opened Records
  import opened Queries

  datatype Entry = Entry(id: int, name: string, numUpcomingShows: nat)

  /** A record's entry: its id, its name and its number of shows strictly after `now`. */
  function EntryOf(l: Listing, role: Role, shows: seq<Show>, now: int): Entry
  {
    Entry(l.id, l.name, UpcomingCount(shows, role, l.id, now))
  }

  /** The entries of `ls`, in order. */
  function EntriesOf(ls: seq<Listing>, role: Role, shows: seq<Show>, now: int): seq<Entry>
  {
    seq(|ls|, k requires 0 <= k < |ls| => EntryOf(ls[k], role, shows, now))
  }

  /** The loop that builds the entry list: one entry per record, in the records' order,
      each counting the record's upcoming shows. */
  method ListEntries(ls: seq<Listing>, role: Role, shows: seq<Show>, now: int) returns (data: seq<Entry>)
    ensures |data| == |ls|
    ensures forall k :: 0 <= k < |ls| ==> data[k] == EntryOf(ls[k], role, shows, now)
    ensures data == EntriesOf(ls, role, shows, now)
  {
    data := [];
    for i := 0 to |ls|
      invariant |data| == i
      invariant forall k :: 0 <= k < i ==> data[k] == EntryOf(ls[k], role, shows, now)
    {
      var num := |Select(shows, UpcomingOf(role, ls[i].id, now))|;
      data := data + [Entry(ls[i].id, ls[i].name, num)];
    }
  }
}
