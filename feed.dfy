/** The home page's "recently listed" feed: the artists and the venues, each ordered by
    id descending, merged two-pointer fashion into at most ten entries. */
module Feed {
  import opened Records

  datatype Kind = ArtistKind | VenueKind

  /** One `{"id", "name", "type"}` entry of the feed. */
  datatype FeedItem = FeedItem(id: int, name: string, kind: Kind)

  const FeedLimit: nat := 10

  function ArtistItem(a: Artist): FeedItem { FeedItem(a.id, a.name, ArtistKind) }
  function VenueItem(v: Venue): FeedItem { FeedItem(v.id, v.name, VenueKind) }

  /** With `i` artists and `j` venues already taken, the next entry is an artist exactly
      when artists remain and either no venue remains or the artist's id is strictly
      greater than the venue's: on equal ids the venue goes first. */
  predicate ArtistGoesNext(artists: seq<Artist>, venues: seq<Venue>, i: nat, j: nat)
    requires i <= |artists| && j <= |venues|
  {
    i < |artists| && (j == |venues| || artists[i].id > venues[j].id)
  }

  /** The merge rule applied from state (i, j), for at most `limit` more entries. */
  function MergeFrom(artists: seq<Artist>, venues: seq<Venue>, i: nat, j: nat, limit: nat): seq<FeedItem>
    requires i <= |artists| && j <= |venues|
    decreases limit
  {
    if limit == 0 || (i == |artists| && j == |venues|) then []
    else if ArtistGoesNext(artists, venues, i, j) then
      [ArtistItem(artists[i])] + MergeFrom(artists, venues, i + 1, j, limit - 1)
    else
      [VenueItem(venues[j])] + MergeFrom(artists, venues, i, j + 1, limit - 1)
  }

  function Merge(artists: seq<Artist>, venues: seq<Venue>, limit: nat): seq<FeedItem>
  {
    MergeFrom(artists, venues, 0, 0, limit)
  }

  /** `index`: the feed of at most ten entries, from the two tables as the database returns
      them ordered by descending id. */
  method RecentlyListed(artists: seq<Artist>, venues: seq<Venue>) returns (data: seq<FeedItem>)
    requires ArtistsByIdDesc(artists) && VenuesByIdDesc(venues)
    ensures data == Merge(artists, venues, FeedLimit)
    ensures |data| == if FeedLimit < |artists| + |venues| then FeedLimit else |artists| + |venues|
    ensures FeedByIdDesc(data)
  {
    data := MergeFeed(artists, venues, FeedLimit);
    MergeLength(artists, venues, FeedLimit);
    MergeDescending(artists, venues, FeedLimit);
  }

  /** The three loops of `index`: take the larger id while both lists remain (the venue
      on equal ids), then drain the venues, then the artists, each stopping at `limit`. */
  method MergeFeed(artists: seq<Artist>, venues: seq<Venue>, limit: nat) returns (data: seq<FeedItem>)
    ensures data == Merge(artists, venues, limit)
  {
    data := [];
    var i, j := 0, 0;
    ghost var feed := Merge(artists, venues, limit);
    while i < |artists| && j < |venues| && |data| < limit
      invariant i <= |artists| && j <= |venues| && |data| <= limit
      invariant data + MergeFrom(artists, venues, i, j, limit - |data|) == feed
    {
      if artists[i].id > venues[j].id {
        TakeArtist(artists, venues, i, j, limit - |data|, data);
        data := data + [ArtistItem(artists[i])];
        i := i + 1;
      } else {
        TakeVenue(artists, venues, i, j, limit - |data|, data);
        data := data + [VenueItem(venues[j])];
        j := j + 1;
      }
    }
    while |data| < limit && j < |venues|
      invariant i <= |artists| && j <= |venues| && |data| <= limit
      invariant |data| < limit ==> i == |artists| || j == |venues|
      invariant data + MergeFrom(artists, venues, i, j, limit - |data|) == feed
    {
      TakeVenue(artists, venues, i, j, limit - |data|, data);
      data := data + [VenueItem(venues[j])];
      j := j + 1;
    }
    while |data| < limit && i < |artists|
      invariant i <= |artists| && j <= |venues| && |data| <= limit
      invariant |data| < limit ==> j == |venues|
      invariant data + MergeFrom(artists, venues, i, j, limit - |data|) == feed
    {
      TakeArtist(artists, venues, i, j, limit - |data|, data);
      data := data + [ArtistItem(artists[i])];
      i := i + 1;
    }
    Exhausted(artists, venues, i, j, limit - |data|, data);
  }

  /** A step that takes the next artist, after the entries `data` already emitted. */
  lemma TakeArtist(artists: seq<Artist>, venues: seq<Venue>, i: nat, j: nat, n: nat, data: seq<FeedItem>)
    requires i < |artists| && j <= |venues| && n > 0
    requires j == |venues| || artists[i].id > venues[j].id
    ensures data + MergeFrom(artists, venues, i, j, n)
         == (data + [ArtistItem(artists[i])]) + MergeFrom(artists, venues, i + 1, j, n - 1)
  {
  }

  /** A step that takes the next venue, after the entries `data` already emitted. */
  lemma TakeVenue(artists: seq<Artist>, venues: seq<Venue>, i: nat, j: nat, n: nat, data: seq<FeedItem>)
    requires i <= |artists| && j < |venues| && n > 0
    requires i == |artists| || artists[i].id <= venues[j].id
    ensures data + MergeFrom(artists, venues, i, j, n)
         == (data + [VenueItem(venues[j])]) + MergeFrom(artists, venues, i, j + 1, n - 1)
  {
  }

  /** Once the limit is reached or both lists are used up, nothing more is emitted. */
  lemma Exhausted(artists: seq<Artist>, venues: seq<Venue>, i: nat, j: nat, n: nat, data: seq<FeedItem>)
    requires i <= |artists| && j <= |venues|
    requires n == 0 || (i == |artists| && j == |venues|)
    ensures data + MergeFrom(artists, venues, i, j, n) == data
  {
  }

  /** From state (i, j) the merge yields min(limit, what remains of both lists) entries. */
  lemma {:induction false} MergeFromLength(artists: seq<Artist>, venues: seq<Venue>, i: nat, j: nat, limit: nat)
    requires i <= |artists| && j <= |venues|
    ensures var left := |artists| - i + |venues| - j;
      |MergeFrom(artists, venues, i, j, limit)| == if limit < left then limit else left
    decreases limit
  {
    if limit == 0 || (i == |artists| && j == |venues|) {
    } else if ArtistGoesNext(artists, venues, i, j) {
      MergeFromLength(artists, venues, i + 1, j, limit - 1);
    } else {
      MergeFromLength(artists, venues, i, j + 1, limit - 1);
    }
  }

  /** The feed has exactly min(limit, #artists + #venues) entries. */
  lemma MergeLength(artists: seq<Artist>, venues: seq<Venue>, limit: nat)
    ensures |Merge(artists, venues, limit)|
         == if limit < |artists| + |venues| then limit else |artists| + |venues|
  {
    MergeFromLength(artists, venues, 0, 0, limit);
  }

  /** The entries of one kind, in feed order. */
  function OfKind(items: seq<FeedItem>, k: Kind): (r: seq<FeedItem>)
    ensures |r| <= |items|
  {
    if items == [] then []
    else (if items[0].kind == k then [items[0]] else []) + OfKind(items[1..], k)
  }

  /** How many entries of one kind. */
  function Taken(items: seq<FeedItem>, k: Kind): nat
  {
    |OfKind(items, k)|
  }

  lemma {:induction false} OfKindAppend(s: seq<FeedItem>, t: seq<FeedItem>, k: Kind)
    ensures OfKind(s + t, k) == OfKind(s, k) + OfKind(t, k)
  {
    if s == [] {
      assert s + t == t;
    } else {
      var head := if s[0].kind == k then [s[0]] else [];
      OfKindAppend(s[1..], t, k);
      assert (s + t)[0] == s[0];
      assert (s + t)[1..] == s[1..] + t;
      assert OfKind(s + t, k) == head + OfKind(s[1..] + t, k);
      assert OfKind(s, k) == head + OfKind(s[1..], k);
      AppendAssoc(head, OfKind(s[1..], k), OfKind(t, k));
    }
  }

  lemma AppendAssoc<T>(a: seq<T>, b: seq<T>, c: seq<T>)
    ensures a + (b + c) == (a + b) + c
  {
  }

  /** Every entry is of exactly one of the two kinds. */
  lemma {:induction false} KindsPartition(items: seq<FeedItem>)
    ensures |OfKind(items, ArtistKind)| + |OfKind(items, VenueKind)| == |items|
  {
    if items != [] {
      KindsPartition(items[1..]);
    }
  }

  /** After the first k entries of the feed, with i artist entries and j venue entries
      among them, the rest of the feed is the merge continued from state (i, j). */
  lemma {:induction false} MergeReplay(artists: seq<Artist>, venues: seq<Venue>, limit: nat, k: nat)
    requires k <= |Merge(artists, venues, limit)|
    ensures k <= limit
    ensures Taken(Merge(artists, venues, limit)[..k], ArtistKind) <= |artists|
    ensures Taken(Merge(artists, venues, limit)[..k], VenueKind) <= |venues|
    ensures Merge(artists, venues, limit)[k..]
         == MergeFrom(artists, venues, Taken(Merge(artists, venues, limit)[..k], ArtistKind),
                      Taken(Merge(artists, venues, limit)[..k], VenueKind), limit - k)
  {
    var m := Merge(artists, venues, limit);
    if k == 0 {
      assert m[..0] == [];
      assert m[0..] == m;
    } else {
      MergeReplay(artists, venues, limit, k - 1);
      var p := m[..k - 1];
      var i, j := Taken(p, ArtistKind), Taken(p, VenueKind);
      var here := MergeFrom(artists, venues, i, j, limit - (k - 1));
      assert m[k - 1..] == here;
      ReplayStep(artists, venues, i, j, limit - (k - 1));
      var x := here[0];
      assert m[..k] == p + [x];
      assert m[k..] == here[1..];
      TakenSnoc(p, x, ArtistKind);
      TakenSnoc(p, x, VenueKind);
      if ArtistGoesNext(artists, venues, i, j) {
        assert m[k..] == MergeFrom(artists, venues, i + 1, j, limit - k);
      } else {
        assert m[k..] == MergeFrom(artists, venues, i, j + 1, limit - k);
      }
    }
  }

  lemma TakenSnoc(p: seq<FeedItem>, x: FeedItem, k: Kind)
    ensures Taken(p + [x], k) == Taken(p, k) + if x.kind == k then 1 else 0
  {
    OfKindAppend(p, [x], k);
    assert [x][1..] == [];
  }

  /** A non-empty merge from (i, j) starts with the entry the rule picks and continues
      from the state after it. */
  lemma ReplayStep(artists: seq<Artist>, venues: seq<Venue>, i: nat, j: nat, n: nat)
    requires i <= |artists| && j <= |venues|
    requires MergeFrom(artists, venues, i, j, n) != []
    ensures n > 0
    ensures ArtistGoesNext(artists, venues, i, j) ==>
      MergeFrom(artists, venues, i, j, n)[0] == ArtistItem(artists[i])
      && MergeFrom(artists, venues, i, j, n)[1..] == MergeFrom(artists, venues, i + 1, j, n - 1)
    ensures !ArtistGoesNext(artists, venues, i, j) ==>
      j < |venues|
      && MergeFrom(artists, venues, i, j, n)[0] == VenueItem(venues[j])
      && MergeFrom(artists, venues, i, j, n)[1..] == MergeFrom(artists, venues, i, j + 1, n - 1)
  {
  }

  /** From state (i, j), the merge's artist entries are the artists from i on, in order
      and without gaps. */
  lemma {:induction false} MergeFromArtistPrefix(artists: seq<Artist>, venues: seq<Venue>, i: nat, j: nat, n: nat)
    requires i <= |artists| && j <= |venues|
    ensures i + Taken(MergeFrom(artists, venues, i, j, n), ArtistKind) <= |artists|
    ensures forall q :: 0 <= q < Taken(MergeFrom(artists, venues, i, j, n), ArtistKind) ==>
      OfKind(MergeFrom(artists, venues, i, j, n), ArtistKind)[q] == ArtistItem(artists[i + q])
    decreases n
  {
    var m := MergeFrom(artists, venues, i, j, n);
    if n == 0 || (i == |artists| && j == |venues|) {
    } else if ArtistGoesNext(artists, venues, i, j) {
      var rest := MergeFrom(artists, venues, i + 1, j, n - 1);
      MergeFromArtistPrefix(artists, venues, i + 1, j, n - 1);
      assert m == [ArtistItem(artists[i])] + rest;
      assert m[1..] == rest;
      assert OfKind(m, ArtistKind) == [ArtistItem(artists[i])] + OfKind(rest, ArtistKind);
    } else {
      var rest := MergeFrom(artists, venues, i, j + 1, n - 1);
      MergeFromArtistPrefix(artists, venues, i, j + 1, n - 1);
      assert m == [VenueItem(venues[j])] + rest;
      assert m[1..] == rest;
      assert OfKind(m, ArtistKind) == OfKind(rest, ArtistKind);
    }
  }

  /** From state (i, j), the merge's venue entries are the venues from j on, in order
      and without gaps. */
  lemma {:induction false} MergeFromVenuePrefix(artists: seq<Artist>, venues: seq<Venue>, i: nat, j: nat, n: nat)
    requires i <= |artists| && j <= |venues|
    ensures j + Taken(MergeFrom(artists, venues, i, j, n), VenueKind) <= |venues|
    ensures forall q :: 0 <= q < Taken(MergeFrom(artists, venues, i, j, n), VenueKind) ==>
      OfKind(MergeFrom(artists, venues, i, j, n), VenueKind)[q] == VenueItem(venues[j + q])
    decreases n
  {
    var m := MergeFrom(artists, venues, i, j, n);
    if n == 0 || (i == |artists| && j == |venues|) {
    } else if ArtistGoesNext(artists, venues, i, j) {
      var rest := MergeFrom(artists, venues, i + 1, j, n - 1);
      MergeFromVenuePrefix(artists, venues, i + 1, j, n - 1);
      assert m == [ArtistItem(artists[i])] + rest;
      assert m[1..] == rest;
      assert OfKind(m, VenueKind) == OfKind(rest, VenueKind);
    } else {
      var rest := MergeFrom(artists, venues, i, j + 1, n - 1);
      MergeFromVenuePrefix(artists, venues, i, j + 1, n - 1);
      assert m == [VenueItem(venues[j])] + rest;
      assert m[1..] == rest;
      assert OfKind(m, VenueKind) == [VenueItem(venues[j])] + OfKind(rest, VenueKind);
    }
  }

  /** The feed's artist entries are, in order, the first artists of the list, and its
      venue entries the first venues; nothing is skipped, repeated or invented. */
  lemma MergeTakesPrefixes(artists: seq<Artist>, venues: seq<Venue>, limit: nat)
    ensures Taken(Merge(artists, venues, limit), ArtistKind) <= |artists|
    ensures Taken(Merge(artists, venues, limit), VenueKind) <= |venues|
    ensures forall q :: 0 <= q < Taken(Merge(artists, venues, limit), ArtistKind) ==>
      OfKind(Merge(artists, venues, limit), ArtistKind)[q] == ArtistItem(artists[q])
    ensures forall q :: 0 <= q < Taken(Merge(artists, venues, limit), VenueKind) ==>
      OfKind(Merge(artists, venues, limit), VenueKind)[q] == VenueItem(venues[q])
    ensures Taken(Merge(artists, venues, limit), ArtistKind) + Taken(Merge(artists, venues, limit), VenueKind)
         == |Merge(artists, venues, limit)|
  {
    MergeFromArtistPrefix(artists, venues, 0, 0, limit);
    MergeFromVenuePrefix(artists, venues, 0, 0, limit);
    KindsPartition(Merge(artists, venues, limit));
  }

  /** Every entry of the feed is the one the merge rule picks in the state reached by the
      entries before it. */
  lemma MergeRule(artists: seq<Artist>, venues: seq<Venue>, limit: nat, k: nat)
    requires k < |Merge(artists, venues, limit)|
    ensures Taken(Merge(artists, venues, limit)[..k], ArtistKind) <= |artists|
    ensures Taken(Merge(artists, venues, limit)[..k], VenueKind) <= |venues|
    ensures Taken(Merge(artists, venues, limit)[..k], ArtistKind) < |artists|
         || Taken(Merge(artists, venues, limit)[..k], VenueKind) < |venues|
    ensures Merge(artists, venues, limit)[k]
         == NextEntry(artists, venues, Taken(Merge(artists, venues, limit)[..k], ArtistKind),
                      Taken(Merge(artists, venues, limit)[..k], VenueKind))
  {
    var m := Merge(artists, venues, limit);
    MergeReplay(artists, venues, limit, k);
    var i, j := Taken(m[..k], ArtistKind), Taken(m[..k], VenueKind);
    ReplayStep(artists, venues, i, j, limit - k);
    assert m[k] == m[k..][0];
  }

  /** The entry the rule picks in state (i, j). */
  function NextEntry(artists: seq<Artist>, venues: seq<Venue>, i: nat, j: nat): FeedItem
    requires i <= |artists| && j <= |venues| && (i < |artists| || j < |venues|)
  {
    if ArtistGoesNext(artists, venues, i, j) then ArtistItem(artists[i]) else VenueItem(venues[j])
  }

  /** An artist and a venue with the same id, and room for one entry: the venue is listed. */
  lemma TieGoesToVenue(a: Artist, v: Venue)
    requires a.id == v.id
    ensures Merge([a], [v], 1) == [VenueItem(v)]
  {
  }

  predicate ArtistsByIdDesc(artists: seq<Artist>)
  {
    forall p, q :: 0 <= p < q < |artists| ==> artists[p].id >= artists[q].id
  }

  predicate VenuesByIdDesc(venues: seq<Venue>)
  {
    forall p, q :: 0 <= p < q < |venues| ==> venues[p].id >= venues[q].id
  }

  predicate FeedByIdDesc(items: seq<FeedItem>)
  {
    forall p, q :: 0 <= p < q < |items| ==> items[p].id >= items[q].id
  }

  /** From state (i, j), with both lists id-descending, the merge is id-descending and
      no entry exceeds the larger of the two current heads. */
  lemma {:induction false} MergeFromDescending(artists: seq<Artist>, venues: seq<Venue>, i: nat, j: nat, limit: nat)
    requires i <= |artists| && j <= |venues|
    requires ArtistsByIdDesc(artists) && VenuesByIdDesc(venues)
    ensures FeedByIdDesc(MergeFrom(artists, venues, i, j, limit))
    ensures forall x :: x in MergeFrom(artists, venues, i, j, limit) ==>
      (i < |artists| && x.id <= artists[i].id) || (j < |venues| && x.id <= venues[j].id)
    decreases limit
  {
    var m := MergeFrom(artists, venues, i, j, limit);
    if limit == 0 || (i == |artists| && j == |venues|) {
    } else if ArtistGoesNext(artists, venues, i, j) {
      var rest := MergeFrom(artists, venues, i + 1, j, limit - 1);
      MergeFromDescending(artists, venues, i + 1, j, limit - 1);
      assert m == [ArtistItem(artists[i])] + rest;
      assert forall x :: x in rest ==> x.id <= artists[i].id;
    } else {
      var rest := MergeFrom(artists, venues, i, j + 1, limit - 1);
      MergeFromDescending(artists, venues, i, j + 1, limit - 1);
      assert m == [VenueItem(venues[j])] + rest;
      assert forall x :: x in rest ==> x.id <= venues[j].id;
    }
  }

  /** With both lists id-descending, the whole feed is non-increasing in id, the drained
      tail included. */
  lemma MergeDescending(artists: seq<Artist>, venues: seq<Venue>, limit: nat)
    requires ArtistsByIdDesc(artists) && VenuesByIdDesc(venues)
    ensures FeedByIdDesc(Merge(artists, venues, limit))
  {
    MergeFromDescending(artists, venues, 0, 0, limit);
  }
}
