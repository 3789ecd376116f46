/** Values exchanged with the playback service, as the queue filler sees them.
    Every response of the remote API is an input value of the model. */
module SpotifyTypes {

  datatype Option<+T> = None | Some(value: T)

  /** Python truthiness of an optional string: `None` and `""` are false. */
  predicate Truthy(x: Option<string>) {
    x.Some? && x.value != ""
  }

  /** One entry of the device list: the id may be null, `is_active` is a flag. */
  datatype Device = Device(id: Option<string>, isActive: bool)

  /** A playlist as listed for the user or for an editorial category. */
  datatype Playlist = Playlist(id: string, name: string)

  /** The track object inside a playlist item, restricted to the fields requested. */
  datatype TrackData = TrackData(uri: string, name: string, popularity: int,
                                 albumName: string, artistNames: seq<string>)

  /** A playlist item; its track is null for removed or unavailable entries. */
  datatype Item = Item(track: Option<TrackData>)

  /** One page of playlist items and the URL of the next page, if any. */
  datatype Page = Page(items: seq<Item>, next: Option<string>)

  predicate HasNext(p: Page) {
    Truthy(p.next)
  }

  /** What the service holds for one playlist id: its name and its chain of pages. */
  datatype PlaylistData = PlaylistData(name: string, pages: seq<Page>)

  type Catalog = map<string, PlaylistData>

  /** The materialised listing of one playlist (`playlist_tracks`). */
  datatype PlaylistTracks = PlaylistTracks(playlist: string, tracks: seq<Item>)

  /** The record handed to the control loop (`target_track`). */
  datatype Track = Track(uri: string, artistName: string, albumName: string,
                         trackName: string, popularity: int, playlist: string)

  /** ASCII upper-casing of one character. */
  function UpperChar(c: char): char {
    if 'a' <= c <= 'z' then (c as int - 32) as char else c
  }

  /** `str.upper()` restricted to ASCII letters. */
  function Upper(s: string): (r: string)
    ensures |r| == |s|
    ensures forall i :: 0 <= i < |s| ==> r[i] == UpperChar(s[i])
  {
    seq(|s|, i requires 0 <= i < |s| => UpperChar(s[i]))
  }

  /** Python's `sub in s` on strings: `sub` occurs as a contiguous slice of `s`. */
  predicate Contains(s: string, sub: string) {
    exists k | 0 <= k <= |s| - |sub| :: OccursAt(s, sub, k)
  }

  predicate OccursAt(s: string, sub: string, k: int) {
    0 <= k <= |s| - |sub| && s[k..k + |sub|] == sub
  }
}
