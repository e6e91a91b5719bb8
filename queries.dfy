/** The filter clauses the handlers send to the database, written as data, and the
    selections they make. A selection keeps the database's retrieval order, which the
    model takes to be the order of the stored sequence. */
module Queries {
  import opened Records
  import opened Text

  /** The `Show.query.filter(...)` clauses the handlers use. */
  datatype ShowFilter =
    | OwnedBy(role: Role, id: int)
    | PastOf(role: Role, id: int, now: int)
    | UpcomingOf(role: Role, id: int, now: int)
    | StartingAt(role: Role, id: int, now: int)
    | NotOwnedBy(role: Role, id: int)

  predicate Keeps(f: ShowFilter, s: Show)
  {
    match f
    case OwnedBy(role, id) => Owner(s, role) == id
    case PastOf(role, id, now) => Owner(s, role) == id && s.startTime < now
    case UpcomingOf(role, id, now) => Owner(s, role) == id && s.startTime > now
    case StartingAt(role, id, now) => Owner(s, role) == id && s.startTime == now
    case NotOwnedBy(role, id) => Owner(s, role) != id
  }

  /** The shows the filter keeps, in retrieval order. */
  function Select(shows: seq<Show>, f: ShowFilter): (r: seq<Show>)
    ensures |r| <= |shows|
    ensures forall s :: s in r <==> s in shows && Keeps(f, s)
    ensures forall s :: multiset(r)[s] == if Keeps(f, s) then multiset(shows)[s] else 0
  {
    if shows == [] then []
    else
      assert shows == [shows[0]] + shows[1..];
      (if Keeps(f, shows[0]) then [shows[0]] else []) + Select(shows[1..], f)
  }

  /** The `num_upcoming_shows` count: shows of the entity strictly after `now`. */
  function UpcomingCount(shows: seq<Show>, role: Role, id: int, now: int): nat
  {
    |Select(shows, UpcomingOf(role, id, now))|
  }

  /** Every show of an entity is past, upcoming, or exactly at `now`, and only one of them. */
  lemma {:induction false} ShowsPartition(shows: seq<Show>, role: Role, id: int, now: int)
    ensures |Select(shows, OwnedBy(role, id))|
         == |Select(shows, PastOf(role, id, now))| + |Select(shows, UpcomingOf(role, id, now))|
          + |Select(shows, StartingAt(role, id, now))|
  {
    if shows != [] {
      ShowsPartition(shows[1..], role, id, now);
    }
  }

  /** The `Model.query.filter(...)` clauses on venues and artists. */
  datatype ListingFilter =
    | NameLike(pattern: string)
    | StateLike(pattern: string)
    | CityLike(pattern: string)
    | StateAndCityLike(statePattern: string, cityPattern: string)
    | PlaceIs(city: string, state: string)

  predicate Admits(f: ListingFilter, l: Listing)
  {
    match f
    case NameLike(p) => ILike(l.name, p)
    case StateLike(p) => ILike(l.state, p)
    case CityLike(p) => ILike(l.city, p)
    case StateAndCityLike(sp, cp) => ILike(l.state, sp) && ILike(l.city, cp)
    case PlaceIs(city, state) => l.city == city && l.state == state
  }

  /** The records the filter admits, in retrieval order. */
  function Where(ls: seq<Listing>, f: ListingFilter): (r: seq<Listing>)
    ensures |r| <= |ls|
    ensures forall l :: l in r <==> l in ls && Admits(f, l)
  {
    if ls == [] then []
    else
      assert ls == [ls[0]] + ls[1..];
      (if Admits(f, ls[0]) then [ls[0]] else []) + Where(ls[1..], f)
  }

  /** A selection keeps each admitted record as many times as it is stored, and no other. */
  lemma {:induction false} WhereMultiplicity(ls: seq<Listing>, f: ListingFilter, l: Listing)
    ensures multiset(Where(ls, f))[l] == if Admits(f, l) then multiset(ls)[l] else 0
  {
    if ls != [] {
      WhereMultiplicity(ls[1..], f, l);
      assert ls == [ls[0]] + ls[1..];
    }
  }
}
