/** The `venues` page: venues grouped by (city, state), the keys read back from the string
    form of each venue's `(city, state)` row, grouped per state in a dict of city sets. */
module Areas {
  import opened Records
  import opened Text
  import opened Queries
  import opened Entries

  /** A (city, state) key. */
  datatype Place = Place(city: string, state: string)

  /** One group of the page: its key and the entries of the venues stored under it. */
  datatype Area = Area(city: string, state: string, venues: seq<Entry>)

  /** `l = str((city, state)).split(',')`, then `l[0][2:-1]` and `l[1][2:4]`: the key the
      page reads back from a venue's row. The state keeps at most two characters. */
  function ParsePlace(city: string, state: string): (p: Place)
    ensures |p.state| <= 2
  {
    var t := TupleRepr(city, state);
    assert t[1 + |Repr(city)|] == ',';
    var l := Split(t, ',');
    Place(PySlice(l[0], 2, -1), PySlice(l[1], 2, 4))
  }

  function VenuePlace(v: Venue): Place
  {
    ParsePlace(v.city, v.state)
  }

  function AreaPlace(a: Area): Place
  {
    Place(a.city, a.state)
  }

  function PlacesOf(areas: seq<Area>): set<Place>
  {
    set a | a in areas :: AreaPlace(a)
  }

  /** The parsed keys of the venues, in retrieval order. */
  function Keys(vs: seq<Venue>): seq<Place>
  {
    seq(|vs|, i requires 0 <= i < |vs| => VenuePlace(vs[i]))
  }

  /** The keys of the state dict in insertion order: each state where it is first seen. */
  function StateOrder(keys: seq<Place>): seq<string>
  {
    if keys == [] then []
    else
      var init := StateOrder(keys[..|keys| - 1]);
      var state := keys[|keys| - 1].state;
      if state in init then init else init + [state]
  }

  /** The city set stored under `state` once `keys` have been read. */
  function CitiesIn(keys: seq<Place>, state: string): set<string>
  {
    if keys == [] then {}
    else
      var last := keys[|keys| - 1];
      CitiesIn(keys[..|keys| - 1], state) + (if last.state == state then {last.city} else {})
  }

  lemma StateOrderSnoc(keys: seq<Place>, p: Place)
    ensures StateOrder(keys + [p])
         == if p.state in StateOrder(keys) then StateOrder(keys) else StateOrder(keys) + [p.state]
  {
    assert (keys + [p])[..|keys|] == keys;
  }

  lemma CitiesInSnoc(keys: seq<Place>, p: Place, state: string)
    ensures CitiesIn(keys + [p], state) == CitiesIn(keys, state) + (if p.state == state then {p.city} else {})
  {
    assert (keys + [p])[..|keys|] == keys;
  }

  /** A state not yet seen has no cities. */
  lemma {:induction false} UnseenStateHasNoCities(keys: seq<Place>, s: string)
    requires s !in StateOrder(keys)
    ensures CitiesIn(keys, s) == {}
  {
    if keys != [] {
      UnseenStateHasNoCities(keys[..|keys| - 1], s);
    }
  }

  /** The state order lists each state once. */
  lemma {:induction false} StateOrderDistinct(keys: seq<Place>)
    ensures forall i, j :: 0 <= i < j < |StateOrder(keys)| ==> StateOrder(keys)[i] != StateOrder(keys)[j]
  {
    if keys != [] {
      StateOrderDistinct(keys[..|keys| - 1]);
    }
  }

  /** The state order lists exactly the states of the keys. */
  lemma {:induction false} StateOrderMembers(keys: seq<Place>, s: string)
    ensures s in StateOrder(keys) <==> exists p :: p in keys && p.state == s
  {
    if keys != [] {
      var init := keys[..|keys| - 1];
      StateOrderMembers(init, s);
      assert keys == init + [keys[|keys| - 1]];
    }
  }

  /** The city set of a state holds exactly the cities keyed with that state. */
  lemma {:induction false} CitiesInMembers(keys: seq<Place>, p: Place)
    ensures p.city in CitiesIn(keys, p.state) <==> p in keys
  {
    if keys != [] {
      var init := keys[..|keys| - 1];
      CitiesInMembers(init, p);
      assert keys == init + [keys[|keys| - 1]];
    }
  }

  /** The position of `x` in `xs`, or `|xs|` when it is absent. */
  function Rank(xs: seq<string>, x: string): (r: nat)
    ensures r <= |xs|
    ensures x in xs <==> r < |xs|
    ensures r < |xs| ==> xs[r] == x
  {
    if xs == [] then 0
    else if xs[0] == x then 0
    else 1 + Rank(xs[1..], x)
  }

  lemma {:induction false} RankOfElement(xs: seq<string>, m: nat)
    requires m < |xs|
    requires forall i, j :: 0 <= i < j < |xs| ==> xs[i] != xs[j]
    ensures Rank(xs, xs[m]) == m
  {
    if m > 0 {
      RankOfElement(xs[1..], m - 1);
    }
  }

  lemma PlacesSnoc(areas: seq<Area>, a: Area)
    ensures PlacesOf(areas + [a]) == PlacesOf(areas) + {AreaPlace(a)}
  {
    assert forall b :: b in areas + [a] <==> b in areas || b == a;
  }

  lemma PrefixSnoc<T>(s: seq<T>, i: nat)
    requires i < |s|
    ensures s[..i + 1] == s[..i] + [s[i]]
  {
  }

  lemma PlacesAppend(xs: seq<Area>, ys: seq<Area>)
    ensures PlacesOf(xs + ys) == PlacesOf(xs) + PlacesOf(ys)
  {
    assert forall b :: b in xs + ys <==> b in xs || b in ys;
  }

  /** `order` and `cities` are the state dict after reading `keys`. */
  predicate Collected(keys: seq<Place>, order: seq<string>, cities: map<string, set<string>>)
  {
    && order == StateOrder(keys)
    && cities.Keys == (set s | s in order)
    && forall s :: s in cities ==> cities[s] == CitiesIn(keys, s)
  }

  /** One step of the first loop of `venues`: add the city to its state's set, creating
      the set (at the end of the key order) when the state is new. */
  method RecordPlace(order: seq<string>, cities: map<string, set<string>>, ghost keys: seq<Place>, place: Place)
    returns (order': seq<string>, cities': map<string, set<string>>)
    requires Collected(keys, order, cities)
    ensures Collected(keys + [place], order', cities')
  {
    StateOrderSnoc(keys, place);
    forall s ensures CitiesIn(keys + [place], s) == CitiesIn(keys, s) + (if place.state == s then {place.city} else {})
    {
      CitiesInSnoc(keys, place, s);
    }
    if place.state in cities {
      cities' := cities[place.state := cities[place.state] + {place.city}];
      order' := order;
    } else {
      UnseenStateHasNoCities(keys, place.state);
      cities' := cities[place.state := {place.city}];
      order' := order + [place.state];
    }
  }

  /** The first loop of `venues`: the dict from each parsed state to the set of its parsed
      cities, written as a map plus its key order, which Python keeps as insertion order. */
  method CollectStates(venues: seq<Venue>) returns (order: seq<string>, cities: map<string, set<string>>)
    ensures order == StateOrder(Keys(venues))
    ensures cities.Keys == set s | s in order
    ensures forall s :: s in cities ==> cities[s] == CitiesIn(Keys(venues), s)
  {
    order := [];
    cities := map[];
    ghost var keys: seq<Place> := [];
    for i := 0 to |venues|
      invariant keys == Keys(venues)[..i]
      invariant Collected(keys, order, cities)
    {
      var place := VenuePlace(venues[i]);
      order, cities := RecordPlace(order, cities, keys, place);
      assert Keys(venues)[i] == place;
      PrefixSnoc(Keys(venues), i);
      keys := keys + [place];
    }
    assert keys == Keys(venues);
  }

  /** The groups of one state: one per city of its set, taken in an unspecified order, as a
      Python set iterates, each listing the venues stored under exactly that key. */
  method StateGroups(venues: seq<Venue>, shows: seq<Show>, now: int, state: string, cities: set<string>)
    returns (groups: seq<Area>)
    ensures forall p :: p in PlacesOf(groups) <==> p.state == state && p.city in cities
    ensures forall i, j :: 0 <= i < j < |groups| ==> groups[i].city != groups[j].city
    ensures forall a :: a in groups ==> a.state == state
    ensures forall a :: a in groups ==>
      a.venues == EntriesOf(Where(VenueListings(venues), PlaceIs(a.city, a.state)), VenueRole, shows, now)
  {
    groups := [];
    var remaining := cities;
    while remaining != {}
      invariant remaining <= cities
      invariant forall p :: p in PlacesOf(groups) <==> p.state == state && p.city in cities - remaining
      invariant forall i, j :: 0 <= i < j < |groups| ==> groups[i].city != groups[j].city
      invariant forall a :: a in groups ==> a.state == state
      invariant forall a :: a in groups ==>
        a.venues == EntriesOf(Where(VenueListings(venues), PlaceIs(a.city, a.state)), VenueRole, shows, now)
      decreases |remaining|
    {
      var city :| city in remaining;
      var entries := ListEntries(Where(VenueListings(venues), PlaceIs(city, state)), VenueRole, shows, now);
      var area := Area(city, state, entries);
      forall i | 0 <= i < |groups|
        ensures groups[i].city != city
      {
        assert AreaPlace(groups[i]) in PlacesOf(groups);
      }
      PlacesSnoc(groups, area);
      groups := groups + [area];
      remaining := remaining - {city};
    }
  }

  /** The second loop of `venues`: for each state in dict order, the groups of its cities. */
  method EmitGroups(venues: seq<Venue>, shows: seq<Show>, now: int, order: seq<string>, cities: map<string, set<string>>)
    returns (areas: seq<Area>)
    requires forall i, j :: 0 <= i < j < |order| ==> order[i] != order[j]
    requires cities.Keys == set s | s in order
    ensures forall p :: p in PlacesOf(areas) <==> p.state in cities && p.city in cities[p.state]
    ensures forall i, j :: 0 <= i < j < |areas| ==> AreaPlace(areas[i]) != AreaPlace(areas[j])
    ensures forall a :: a in areas ==>
      a.venues == EntriesOf(Where(VenueListings(venues), PlaceIs(a.city, a.state)), VenueRole, shows, now)
    ensures forall i, j :: 0 <= i < j < |areas| ==> Rank(order, areas[i].state) <= Rank(order, areas[j].state)
  {
    areas := [];
    for k := 0 to |order|
      invariant forall p :: p in PlacesOf(areas) <==>
        p.state in cities && p.city in cities[p.state] && Rank(order, p.state) < k
      invariant forall i, j :: 0 <= i < j < |areas| ==> AreaPlace(areas[i]) != AreaPlace(areas[j])
      invariant forall a :: a in areas ==>
        a.venues == EntriesOf(Where(VenueListings(venues), PlaceIs(a.city, a.state)), VenueRole, shows, now)
      invariant forall i :: 0 <= i < |areas| ==> Rank(order, areas[i].state) < k
      invariant forall i, j :: 0 <= i < j < |areas| ==> Rank(order, areas[i].state) <= Rank(order, areas[j].state)
    {
      var state := order[k];
      RankOfElement(order, k);
      var groups := StateGroups(venues, shows, now, state, cities[state]);
      PlacesAppend(areas, groups);
      forall a | a in groups
        ensures Rank(order, a.state) == k
      {
      }
      forall p
        ensures p in PlacesOf(areas + groups) <==>
          p.state in cities && p.city in cities[p.state] && Rank(order, p.state) < k + 1
      {
        if Rank(order, p.state) == k {
          assert p.state == state;
        }
      }
      areas := areas + groups;
    }
  }

  /** `venues`: one group per parsed (city, state) key, listing exactly the venues stored
      under that key; the groups of a state are consecutive and states come in first-seen
      order. */
  method GroupByArea(venues: seq<Venue>, shows: seq<Show>, now: int) returns (areas: seq<Area>)
    ensures forall p :: p in PlacesOf(areas) <==> p in Keys(venues)
    ensures forall i, j :: 0 <= i < j < |areas| ==> AreaPlace(areas[i]) != AreaPlace(areas[j])
    ensures forall a :: a in areas ==>
      a.venues == EntriesOf(Where(VenueListings(venues), PlaceIs(a.city, a.state)), VenueRole, shows, now)
    ensures forall i, j :: 0 <= i < j < |areas| ==>
      Rank(StateOrder(Keys(venues)), areas[i].state) <= Rank(StateOrder(Keys(venues)), areas[j].state)
  {
    var order, cities := CollectStates(venues);
    StateOrderDistinct(Keys(venues));
    areas := EmitGroups(venues, shows, now, order, cities);
    forall p
      ensures p in PlacesOf(areas) <==> p in Keys(venues)
    {
      StateOrderMembers(Keys(venues), p.state);
      CitiesInMembers(Keys(venues), p);
    }
  }

  /** For a city and a state free of commas, quotes and escapes, the key keeps the city and
      the first two characters of `state + "')"`. */
  lemma ParsePlain(city: string, state: string)
    requires Plain(city) && Plain(state)
    ensures ParsePlace(city, state) == Place(city, (state + "')")[..2])
  {
    ReprPlain(city);
    ReprPlain(state);
    var a := "('" + city + "'";
    var b := " '" + state + "')";
    assert TupleRepr(city, state) == a + [','] + b;
    assert ',' !in a;
    assert ',' !in b;
    SplitAtFirst(a, b, ',');
    SplitWithoutSep(b, ',');
    assert a[2..|a| - 1] == city;
    assert b[2..4] == (state + "')")[..2];
  }

  /** With a state of two characters or more, only its first two characters survive. */
  lemma ParseKeepsTwoStateChars(city: string, state: string)
    requires Plain(city) && Plain(state) && |state| >= 2
    ensures ParsePlace(city, state) == Place(city, state[..2])
  {
    ParsePlain(city, state);
  }

  /** A stored venue is selected for a group exactly when its own city and state are the key. */
  lemma InGroupIffSameKey(venues: seq<Venue>, v: Venue, city: string, state: string)
    requires v in venues
    ensures VenueListing(v) in Where(VenueListings(venues), PlaceIs(city, state)) <==> v.city == city && v.state == state
  {
    var m :| 0 <= m < |venues| && venues[m] == v;
    assert VenueListings(venues)[m] == VenueListing(v);
  }

  /** A venue with plain city and state and a two-character state is listed under exactly
      one group of the page: the one keyed by its own city and state. */
  lemma PlainVenueInOneGroup(venues: seq<Venue>, shows: seq<Show>, now: int, areas: seq<Area>, v: Venue)
    requires forall p :: p in PlacesOf(areas) <==> p in Keys(venues)
    requires forall i, j :: 0 <= i < j < |areas| ==> AreaPlace(areas[i]) != AreaPlace(areas[j])
    requires v in venues && Plain(v.city) && Plain(v.state) && |v.state| == 2
    ensures exists i :: 0 <= i < |areas| && AreaPlace(areas[i]) == Place(v.city, v.state)
    ensures forall i :: 0 <= i < |areas| ==>
      (VenueListing(v) in Where(VenueListings(venues), PlaceIs(areas[i].city, areas[i].state))
       <==> AreaPlace(areas[i]) == Place(v.city, v.state))
    ensures forall i, j :: (0 <= i < |areas| && 0 <= j < |areas|
      && AreaPlace(areas[i]) == Place(v.city, v.state) && AreaPlace(areas[j]) == Place(v.city, v.state)) ==> i == j
  {
    ParseKeepsTwoStateChars(v.city, v.state);
    assert v.state[..2] == v.state;
    var m :| 0 <= m < |venues| && venues[m] == v;
    assert Keys(venues)[m] == Place(v.city, v.state);
    assert Place(v.city, v.state) in PlacesOf(areas);
    var i :| i in areas && AreaPlace(i) == Place(v.city, v.state);
    var k :| 0 <= k < |areas| && areas[k] == i;
    forall i | 0 <= i < |areas|
      ensures VenueListing(v) in Where(VenueListings(venues), PlaceIs(areas[i].city, areas[i].state))
              <==> AreaPlace(areas[i]) == Place(v.city, v.state)
    {
      InGroupIffSameKey(venues, v, areas[i].city, areas[i].state);
    }
  }

  /** A venue whose state is longer than two characters is listed under no group. */
  lemma LongStateInNoGroup(venues: seq<Venue>, areas: seq<Area>, v: Venue)
    requires forall p :: p in PlacesOf(areas) <==> p in Keys(venues)
    requires |v.state| > 2
    ensures forall a :: a in areas ==> VenueListing(v) !in Where(VenueListings(venues), PlaceIs(a.city, a.state))
  {
    forall a | a in areas
      ensures a.state != v.state
    {
      assert AreaPlace(a) in PlacesOf(areas);
    }
  }
}
