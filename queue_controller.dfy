/** The queue-filling control loop: start-up and one pass of its `while True` body. */
module QueueController {
  import opened SpotifyTypes
  import DeviceResolver
  import PlaylistResolver
  import TrackSelector

  /** The loop only fills the queue while it holds fewer entries than this. */
  const QueueLimit: nat := 20

  /** What one pass of the loop does. */
  datatype Outcome =
    | Idle                                          // queue full: nothing but the 3-second sleep
    | Started(device: Option<string>, uri: string)  // no playback: start playback with the candidate
    | Skipped(uri: string)                          // candidate already played: `continue`, no sleep
    | Enqueued(uri: string)                         // candidate added to the queue
    | Raised                                        // the selection raised: the catch-all takes over

  /** The decision of one pass, given the queue length, whether the service reports a
      playback state (a session exists, possibly paused),
      the candidate drawn (`None` when drawing it raised), the history and the device. */
  function Decide(queueLength: nat, hasPlayback: bool, candidate: Option<Track>,
                  played: seq<string>, device: Option<string>): (o: Outcome)
    ensures o.Idle? <==> queueLength >= QueueLimit
    ensures o.Started? ==> !hasPlayback && candidate.Some? && o.uri == candidate.value.uri && o.device == device
    ensures o.Enqueued? ==> hasPlayback && o.uri !in played && candidate.Some? && o.uri == candidate.value.uri
    ensures o.Skipped? ==> hasPlayback && o.uri in played && candidate.Some? && o.uri == candidate.value.uri
    ensures o.Raised? <==> queueLength < QueueLimit && candidate.None?
  {
    if queueLength >= QueueLimit then Idle
    else match candidate
      case None => Raised
      case Some(t) =>
        if !hasPlayback then Started(device, t.uri)
        else if t.uri in played then Skipped(t.uri)
        else Enqueued(t.uri)
  }

  /** What a pass appends to the history. */
  function Recorded(o: Outcome): seq<string> {
    match o
    case Started(_, uri) => [uri]
    case Enqueued(uri) => [uri]
    case _ => []
  }

  /** The inputs of one pass that a run of passes varies. */
  /** `hasPlayback` is whether `current_playback()` returned a state, paused or not. */
  datatype TickInput = TickInput(queueLength: nat, hasPlayback: bool, candidate: Option<Track>)

  /** The history after a run of passes. */
  function Replay(played: seq<string>, device: Option<string>, ticks: seq<TickInput>): seq<string>
    decreases |ticks|
  {
    if ticks == [] then played
    else
      var t := ticks[0];
      Replay(played + Recorded(Decide(t.queueLength, t.hasPlayback, t.candidate, played, device)), device, ticks[1..])
  }

  predicate NoDuplicates(s: seq<string>) {
    forall i, j :: 0 <= i < j < |s| ==> s[i] != s[j]
  }

  /** Starting playback does not look at the history: a candidate already played is started again. */
  lemma StartIgnoresHistory(queueLength: nat, t: Track, played: seq<string>, device: Option<string>)
    requires queueLength < QueueLimit
    ensures Decide(queueLength, false, Some(t), played, device) == Started(device, t.uri)
    ensures Recorded(Decide(queueLength, false, Some(t), played, device)) == [t.uri]
  {
  }

  /** The history is append-only and grows by at most one entry per pass. */
  lemma {:induction false} HistoryAppendOnly(played: seq<string>, device: Option<string>, ticks: seq<TickInput>)
    ensures played <= Replay(played, device, ticks)
    ensures |Replay(played, device, ticks)| <= |played| + |ticks|
    decreases |ticks|
  {
    if ticks != [] {
      var t := ticks[0];
      var next := played + Recorded(Decide(t.queueLength, t.hasPlayback, t.candidate, played, device));
      HistoryAppendOnly(next, device, ticks[1..]);
      assert played <= next;
    }
  }

  /** While a playback state exists, candidates already in the history are all discarded:
      the history does not change however often they are drawn. */
  lemma {:induction false} RepeatsLeaveHistoryUnchanged(played: seq<string>, device: Option<string>, ticks: seq<TickInput>)
    requires forall k :: 0 <= k < |ticks| ==> ticks[k].hasPlayback
    requires forall k :: 0 <= k < |ticks| && ticks[k].candidate.Some? ==> ticks[k].candidate.value.uri in played
    ensures Replay(played, device, ticks) == played
    decreases |ticks|
  {
    if ticks != [] {
      var t := ticks[0];
      assert Recorded(Decide(t.queueLength, t.hasPlayback, t.candidate, played, device)) == [];
      assert played + [] == played;
      RepeatsLeaveHistoryUnchanged(played, device, ticks[1..]);
    }
  }

  /** While a playback state exists, only the enqueue path records, and it never records a
      repeat: a history without duplicates keeps none. */
  lemma {:induction false} HistoryStaysDistinctWithPlayback(played: seq<string>, device: Option<string>, ticks: seq<TickInput>)
    requires NoDuplicates(played)
    requires forall k :: 0 <= k < |ticks| ==> ticks[k].hasPlayback
    ensures NoDuplicates(Replay(played, device, ticks))
    decreases |ticks|
  {
    if ticks != [] {
      var t := ticks[0];
      var o := Decide(t.queueLength, t.hasPlayback, t.candidate, played, device);
      var next := played + Recorded(o);
      if o.Enqueued? {
        forall i, j | 0 <= i < j < |next| ensures next[i] != next[j] {
          if j == |played| {
            assert next[j] == o.uri && next[i] == played[i];
          }
        }
      } else {
        assert next == played;
      }
      HistoryStaysDistinctWithPlayback(next, device, ticks[1..]);
    }
  }

  /** Exit status decided before the loop starts: 1 when no playlist id was resolved. */
  function StartupExit(playlistIds: seq<string>): Option<int> {
    if playlistIds == [] then Some(1) else None
  }

  /** The program stops with status 1 before its loop exactly when none of the three
      sources of playlists contributed an id. */
  lemma StartupAbortsIff(names: seq<string>, allUser: bool, madeForYou: bool,
                         userPlaylists: seq<Playlist>, category: PlaylistResolver.CategoryResult)
    ensures StartupExit(PlaylistResolver.PlaylistIds(names, allUser, madeForYou, userPlaylists, category)) == Some(1) <==>
            (forall i, k :: 0 <= i < |names| && 0 <= k < |userPlaylists| ==>
               !PlaylistResolver.NameMatches(names[i], userPlaylists[k]))
            && (allUser ==> forall k :: 0 <= k < |userPlaylists| ==> userPlaylists[k].name == "DJ")
            && (madeForYou && category.Listed? ==>
                  forall k :: 0 <= k < |category.items| ==> !Contains(category.items[k].name, "Mix"))
  {
    PlaylistResolver.PlaylistIdsEmptyIff(names, allUser, madeForYou, userPlaylists, category);
  }

  /** The loop's state: the in-memory history `played_tracks`, the target device and the
      resolved playlist ids. */
  class Session {
    var played: seq<string>
    var deviceId: Option<string>
    const playlistIds: seq<string>

    ghost predicate Valid()
      reads this
    {
      playlistIds != []
    }

    /** The state on entering the loop; `saved` is the history loaded from disk, if any. */
    constructor (device: Option<string>, ids: seq<string>, saved: seq<string>)
      requires ids != []
      ensures Valid()
      ensures played == saved && deviceId == device && playlistIds == ids
    {
      played := saved;
      deviceId := device;
      playlistIds := ids;
    }

    /** One pass of the loop. `pick` and `draw` are the two random indices; `pause`
        says whether the pass ends with the 3-second sleep. */
    method Tick(queueLength: nat, hasPlayback: bool, pick: nat, catalog: Catalog, draw: nat)
      returns (outcome: Outcome, pause: bool)
      requires Valid()
      requires pick < |playlistIds| && TrackSelector.DrawFits(catalog, playlistIds[pick], draw)
      modifies this`played
      ensures outcome == Decide(queueLength, hasPlayback,
                                TrackSelector.PickTrack(playlistIds, pick, catalog, draw),
                                old(played), deviceId)
      ensures played == old(played) + Recorded(outcome)
      ensures pause <==> outcome.Idle? || outcome.Started? || outcome.Enqueued?
    {
      if queueLength >= QueueLimit {
        return Idle, true;
      }
      var listing := TrackSelector.GetPlaylistTracks(playlistIds, pick, catalog);
      if listing.None? || listing.value.tracks == [] {
        // the playlist lookup raised, or no index can be drawn over an empty listing
        return Raised, false;
      }
      var candidate := TrackSelector.GetNextTrack(listing.value, draw);
      if candidate.None? {
        return Raised, false;
      }
      var track := candidate.value;
      if !hasPlayback {
        outcome := Started(deviceId, track.uri);
        played := played + [track.uri];
      } else if track.uri in played {
        return Skipped(track.uri), false;
      } else {
        outcome := Enqueued(track.uri);
        played := played + [track.uri];
      }
      pause := true;
    }

    /** The catch-all handler: wait for a device and target it from then on. */
    method Recover(polls: seq<seq<Device>>) returns (used: nat)
      requires |polls| > 0
      modifies this`deviceId
      ensures used < |polls| && deviceId == DeviceResolver.ChosenDevice(polls[used])
      ensures forall j :: 0 <= j < used ==> DeviceResolver.ChosenDevice(polls[j]) == None
      ensures deviceId == None <==> forall j :: 0 <= j < |polls| ==> DeviceResolver.ChosenDevice(polls[j]) == None
    {
      deviceId, used := DeviceResolver.GetDevice(true, polls);
    }
  }

  /** Start-up: resolve the device once without waiting, resolve the playlists, and stop
      with status 1 when there are none; otherwise enter the loop with `saved` as history. */
  method Launch(devices: seq<Device>, names: seq<string>, allUser: bool, madeForYou: bool,
                userPlaylists: seq<Playlist>, category: PlaylistResolver.CategoryResult,
                saved: seq<string>)
    returns (status: Option<int>, session: Session?)
    ensures status == StartupExit(PlaylistResolver.PlaylistIds(names, allUser, madeForYou, userPlaylists, category))
    ensures status.None? <==> session != null
    ensures session != null ==>
              fresh(session) && session.Valid() && session.played == saved &&
              session.deviceId == DeviceResolver.ChosenDevice(devices) &&
              session.playlistIds == PlaylistResolver.PlaylistIds(names, allUser, madeForYou, userPlaylists, category)
  {
    var device, _ := DeviceResolver.GetDevice(false, [devices]);
    var ids := PlaylistResolver.GetPlaylistIds(names, allUser, madeForYou, userPlaylists, category);
    if ids == [] {
      return Some(1), null;
    }
    status := None;
    session := new Session(device, ids, saved);
  }
}
