/** Fetching one playlist's full listing and picking one track from it
    (`get_playlist_tracks`, `get_next_track`). */
module TrackSelector {
  import opened SpotifyTypes

  /** The chain of pages ends: following `next` from the first page reaches a page without one. */
  predicate Terminates(pages: seq<Page>)
    decreases |pages|
  {
    |pages| > 0 && (HasNext(pages[0]) ==> Terminates(pages[1..]))
  }

  /** The items reached by following `next` from the first page, in page order. */
  function Listing(pages: seq<Page>): seq<Item>
    requires Terminates(pages)
    decreases |pages|
  {
    pages[0].items + if HasNext(pages[0]) then Listing(pages[1..]) else []
  }

  /** All items of the given pages, in page order. */
  function Concat(pages: seq<Page>): seq<Item>
    decreases |pages|
  {
    if pages == [] then [] else pages[0].items + Concat(pages[1..])
  }

  /** Page `k` is the first page without a next link. */
  predicate FirstLastPage(pages: seq<Page>, k: nat) {
    k < |pages| && !HasNext(pages[k]) && forall j :: 0 <= j < k ==> HasNext(pages[j])
  }

  /** The listing is the concatenation of every page up to and including the first one
      without a next link, and of no page after it. */
  lemma {:induction false} ListingStopsAtFirstNull(pages: seq<Page>, k: nat)
    requires FirstLastPage(pages, k)
    ensures Terminates(pages) && Listing(pages) == Concat(pages[..k + 1])
    decreases k
  {
    if k == 0 {
      assert pages[..1][1..] == [];
    } else {
      var rest := pages[1..];
      assert forall j :: 0 <= j < k - 1 ==> rest[j] == pages[j + 1];
      ListingStopsAtFirstNull(rest, k - 1);
      assert pages[..k + 1][1..] == rest[..k];
    }
  }

  /** A chain that ends has a first page without a next link. */
  lemma {:induction false} TerminatesHasLastPage(pages: seq<Page>)
    requires Terminates(pages)
    ensures exists k: nat :: FirstLastPage(pages, k)
    decreases |pages|
  {
    if HasNext(pages[0]) {
      var rest := pages[1..];
      TerminatesHasLastPage(rest);
      var k: nat :| FirstLastPage(rest, k);
      assert forall j :: 1 <= j < k + 1 ==> pages[j] == rest[j - 1];
      assert FirstLastPage(pages, k + 1);
    } else {
      assert FirstLastPage(pages, 0);
    }
  }

  /** The answer to the playlist lookups for `id`: `None` when the service knows no such playlist. */
  function FetchTracks(catalog: Catalog, id: string): Option<PlaylistTracks>
    requires id in catalog ==> Terminates(catalog[id].pages)
  {
    if id !in catalog then None
    else Some(PlaylistTracks(catalog[id].name, Listing(catalog[id].pages)))
  }

  /** `get_playlist_tracks`: `pick` is the random index drawn over `identifiers`. */
  method GetPlaylistTracks(identifiers: seq<string>, pick: nat, catalog: Catalog)
    returns (result: Option<PlaylistTracks>)
    requires pick < |identifiers|
    requires identifiers[pick] in catalog ==> Terminates(catalog[identifiers[pick]].pages)
    ensures result == FetchTracks(catalog, identifiers[pick])
  {
    var id := identifiers[pick];
    if id !in catalog {
      // the lookup of the playlist's name raises
      return None;
    }
    var data := catalog[id];
    var k := 0;
    var page := data.pages[0];
    var tracks := page.items;
    assert data.pages[k..] == data.pages;
    while HasNext(page)
      invariant 0 <= k < |data.pages| && page == data.pages[k]
      invariant Terminates(data.pages[k..])
      invariant tracks + (if HasNext(page) then Listing(data.pages[k + 1..]) else []) == Listing(data.pages)
      decreases |data.pages| - k
    {
      assert data.pages[k..][1..] == data.pages[k + 1..];
      k := k + 1;
      page := data.pages[k];
      assert data.pages[k..][1..] == data.pages[k + 1..];
      tracks := tracks + page.items;
    }
    assert tracks == Listing(data.pages);
    result := Some(PlaylistTracks(data.name, tracks));
  }

  /** An item the program can turn into a track: it has a track with at least one artist. */
  predicate Playable(item: Item) {
    item.track.Some? && |item.track.value.artistNames| > 0
  }

  /** `t` carries the fields of `d`, its first artist, and the playlist name. */
  predicate Describes(t: Track, d: TrackData, playlist: string) {
    |d.artistNames| > 0 &&
    t.uri == d.uri && t.artistName == d.artistNames[0] && t.albumName == d.albumName &&
    t.trackName == d.name && t.popularity == d.popularity && t.playlist == playlist
  }

  /** `get_next_track`: `i` is the random index drawn over the listing. `None` stands for
      the exception raised on an item without a track or without any artist. */
  function GetNextTrack(listing: PlaylistTracks, i: nat): (r: Option<Track>)
    requires i < |listing.tracks|
    ensures r.Some? <==> Playable(listing.tracks[i])
    ensures r.Some? ==> Describes(r.value, listing.tracks[i].track.value, listing.playlist)
  {
    match listing.tracks[i].track
    case None => None
    case Some(d) =>
      if |d.artistNames| == 0 then None
      else Some(Track(d.uri, d.artistNames[0], d.albumName, d.name, d.popularity, listing.playlist))
  }

  /** The draw over a listing is in range, when the playlist exists and is not empty. */
  predicate DrawFits(catalog: Catalog, id: string, draw: nat) {
    id in catalog ==>
      Terminates(catalog[id].pages) &&
      (Listing(catalog[id].pages) != [] ==> draw < |Listing(catalog[id].pages)|)
  }

  /** One selection: the playlist `identifiers[pick]`, then the track `draw` of its listing.
      `None` when the selection raises: unknown playlist, empty listing (no index can be
      drawn) or an unplayable item. */
  function PickTrack(identifiers: seq<string>, pick: nat, catalog: Catalog, draw: nat): Option<Track>
    requires pick < |identifiers| && DrawFits(catalog, identifiers[pick], draw)
  {
    match FetchTracks(catalog, identifiers[pick])
    case None => None
    case Some(listing) =>
      if listing.tracks == [] then None else GetNextTrack(listing, draw)
  }

  /** A picked track is a playable item of the chosen playlist, described with that playlist's name. */
  lemma PickBelongsToChosenPlaylist(identifiers: seq<string>, pick: nat, catalog: Catalog, draw: nat)
    requires pick < |identifiers| && DrawFits(catalog, identifiers[pick], draw)
    requires PickTrack(identifiers, pick, catalog, draw).Some?
    ensures identifiers[pick] in catalog
    ensures exists k :: 0 <= k < |Listing(catalog[identifiers[pick]].pages)| &&
              Playable(Listing(catalog[identifiers[pick]].pages)[k]) &&
              Describes(PickTrack(identifiers, pick, catalog, draw).value,
                        Listing(catalog[identifiers[pick]].pages)[k].track.value,
                        catalog[identifiers[pick]].name)
  {
  }

  /** The pick fails exactly when the playlist is unknown, empty, or the drawn item is unplayable. */
  lemma PickFailsIff(identifiers: seq<string>, pick: nat, catalog: Catalog, draw: nat)
    requires pick < |identifiers| && DrawFits(catalog, identifiers[pick], draw)
    ensures PickTrack(identifiers, pick, catalog, draw).None? <==>
            identifiers[pick] !in catalog ||
            Listing(catalog[identifiers[pick]].pages) == [] ||
            !Playable(Listing(catalog[identifiers[pick]].pages)[draw])
  {
  }
}
