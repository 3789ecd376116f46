# spotify-randomizer: a Dafny model of the queue filler

`spotify-random.py` keeps a Spotify playback queue filled with random tracks. It picks a
target device and builds a list of playlist ids from three sources: requested names,
"all user playlists" and the "Made For You" mixes. Then it loops forever. On each pass it
checks the queue length, draws a random playlist and a random track from it, and either
starts playback, skips a track already played, or adds the track to the queue. The
in-memory list `played_tracks` records what it started or queued.

This project models that decision logic. Every answer of the Spotify Web API is an input
value. Each `random.randint` draw is an index parameter with its range as a precondition.

- `SpotifyTypes` (`types.dfy`): devices, playlists, playlist items and pages, the track
  record, Python truthiness of optional strings, ASCII `upper()` and substring search.
- `DeviceResolver` (`device_resolver.dfy`): `get_device`. `SelectDevice` runs the source's
  two passes over one device list. `GetDevice` adds the wait loop over successive answers.
  Both are proved against the specification function `ChosenDevice`.
- `PlaylistResolver` (`playlist_resolver.dfy`): `get_playlist_ids`. `GetPlaylistIds` has
  the source's loops, including the `break` on the first name match. It is proved against
  `PlaylistIds`, the concatenation of `NameMatchIds`, `NonDJIds` and `MixIds`.
- `TrackSelector` (`track_selector.dfy`): `get_playlist_tracks` follows `next` links page by
  page and is proved against `Listing`. `get_next_track` is the function `GetNextTrack`.
  `PickTrack` composes the two draws.
- `QueueController` (`queue_controller.dfy`): start-up (`Launch`, `StartupExit`) and one
  pass of the loop. The class `Session` holds `played_tracks` as the field `played`, plus
  the target device. `Session.Tick` is proved against the decision function `Decide`.
  `Replay` runs `Decide` over a run of passes, so the lemmas can state history properties
  across passes.

The model follows the code in these points:
- With no device at start-up, the code does not stop. `get_device()` returns `None` and the
  loop starts with that device id.
- Adding to the queue has no retry scoped to the device and no exit on rejection.
- Starting playback does not check the history. A track already played can be started
  again and recorded twice (`StartIgnoresHistory`). So "a recorded id is never selected
  again" holds only for the enqueue path (`HistoryStaysDistinctWithPlayback`).
- The resolved playlist list is not de-duplicated.

## Model

| member | source | states |
|---|---|---|
| `DeviceResolver.SelectDevice` | spotify-random.py:66-75 | the two passes over the device list compute `ChosenDevice`: the last active device's id, else the last listed id, `None` for an empty list |
| `DeviceResolver.NoActiveGivesNone` | spotify-random.py:68-72 | with no active device the first pass leaves the target null |
| `DeviceResolver.LastActiveWins` | spotify-random.py:70-72 | the first pass yields the id of the active device after which no device is active |
| `DeviceResolver.LastActiveIsListed` | spotify-random.py:70-72 | a non-null first-pass result is the id of a listed device |
| `DeviceResolver.ChosenDeviceSpec` | spotify-random.py:68-75 | empty list gives `None`; the last active device with a non-empty id wins; with none active the last listed device is taken; a non-empty list always yields a listed id |
| `DeviceResolver.GetDevice` | spotify-random.py:65-85 | without waiting, only the first answer is used; with waiting, the result comes from the first answer that yields a non-null id, and it is null only if every answer was null (the program would still be waiting) |
| `PlaylistResolver.FirstMatchIgnoresCase` | spotify-random.py:108 | names equal after upper-casing resolve to the same playlist |
| `PlaylistResolver.FirstMatchIsFirst` | spotify-random.py:107-110 | a requested name adds the id of the first user playlist that matches it case-insensitively |
| `PlaylistResolver.FirstMatchNoneIff` | spotify-random.py:105-112 | a name adds nothing exactly when no user playlist matches it |
| `PlaylistResolver.FirstMatchListed` | spotify-random.py:107-110 | an added id belongs to a playlist that matches the name |
| `PlaylistResolver.NameMatchIdsAtMostOneEach` | spotify-random.py:104-112 | the name part has at most one id per requested name, each the id of a matching playlist |
| `PlaylistResolver.NameMatchIdsEmptyIff` | spotify-random.py:104-112 | the name part is empty exactly when no requested name matches any user playlist |
| `PlaylistResolver.NonDJIdsMembership` | spotify-random.py:113-117 | under the all flag an id is included exactly when a user playlist with that id is not named exactly "DJ" |
| `PlaylistResolver.NonDJIdsKeepsOthers` | spotify-random.py:113-117 | with no "DJ" playlist the all flag adds every user playlist id, in list order |
| `PlaylistResolver.NonDJIdsEmptyIff` | spotify-random.py:113-117 | the all flag adds nothing exactly when every user playlist is named "DJ" |
| `PlaylistResolver.MixIdsMembership` | spotify-random.py:123-126 | a category id is included exactly when a listed playlist with that id has the case-sensitive substring "Mix" in its name |
| `PlaylistResolver.MixIdsEmptyIff` | spotify-random.py:123-126 | the category adds nothing exactly when no listed name contains "Mix" |
| `PlaylistResolver.PlaylistIdsEmptyIff` | spotify-random.py:102-129 | the resolved list is empty exactly when no name matches, every user playlist is "DJ" (under the all flag) and no category name contains "Mix" (when the category was listed) |
| `PlaylistResolver.GetPlaylistIds` | spotify-random.py:102-129 | the result is the name matches, then the non-"DJ" user playlists, then the "Mix" category playlists, with no de-duplication; a refused category query leaves the ids collected so far unchanged |
| `TrackSelector.ListingStopsAtFirstNull` | spotify-random.py:155-162 | the listing is the concatenation, in page order, of every page up to and including the first without a next link |
| `TrackSelector.TerminatesHasLastPage` | spotify-random.py:159-161 | a page chain that ends has a first page without a next link, where the fetch loop stops |
| `TrackSelector.GetPlaylistTracks` | spotify-random.py:146-162 | the chosen playlist's listing is its name and the items reached by following `next`; an unknown playlist id raises |
| `TrackSelector.GetNextTrack` | spotify-random.py:133-142 | the pick succeeds exactly when the drawn item has a track with an artist; then uri, first artist, album, name, popularity all come from that one item, and the playlist name is the listing's |
| `TrackSelector.PickBelongsToChosenPlaylist` | spotify-random.py:133-162 | a picked track describes a playable item of the randomly chosen playlist and carries that playlist's name |
| `TrackSelector.PickFailsIff` | spotify-random.py:133-162 | selection raises exactly for an unknown playlist, an empty listing, or an unplayable drawn item |
| `QueueController.Decide` | spotify-random.py:224-235 | no action exactly when the queue holds 20 or more; otherwise a raising selection is reported, a candidate is started when no playback state exists, skipped when its uri is in the history, and enqueued otherwise |
| `QueueController.StartIgnoresHistory` | spotify-random.py:228-230 | with no playback the candidate is started and recorded even if it is already in the history |
| `QueueController.HistoryAppendOnly` | spotify-random.py:225-235 | over any run of passes, the old history is a prefix of the new one, which is at most one entry per pass longer |
| `QueueController.RepeatsLeaveHistoryUnchanged` | spotify-random.py:231-232 | while a playback state exists (playing or paused), drawing already-played tracks any number of times changes nothing |
| `QueueController.HistoryStaysDistinctWithPlayback` | spotify-random.py:231-235 | while a playback state exists (playing or paused), a history without duplicates keeps none |
| `QueueController.StartupAbortsIff` | spotify-random.py:196-199 | the program exits with status 1 before the loop exactly when no source contributed a playlist id |
| `QueueController.Session.constructor` | spotify-random.py:183-187 | the loop starts with the given history and device and a non-empty playlist list |
| `QueueController.Session.Tick` | spotify-random.py:222-250 | one pass draws only when the queue is short, follows `Decide`, appends exactly what was started or enqueued, and sleeps 3 seconds unless it skipped or raised |
| `QueueController.Session.Recover` | spotify-random.py:251-252 | the catch-all re-targets the first device found while waiting, and leaves the history alone |
| `QueueController.Launch` | spotify-random.py:193-199 | start-up resolves the device without waiting and the playlists, and exits with status 1 exactly when no playlist was resolved |

## Left out

- All Spotify Web API calls are inputs: device lists, the user playlist listing, the category answer, and a catalog of playlist names and page chains. Their network behaviour, timeouts and retries are not modelled.
- `current_user_playlists()` is asked again for each name in the source. The model uses one answer. That answer is the first page of the listing, as in the source, which never follows its `next` link.
- `random.randint` is modelled as index parameters `pick` and `draw`, each required to be in range. Uniformity is not modelled.
- `time.sleep` and the infinite `while True` are not modelled. `Session.Tick` is one pass, and `pause` says whether the 3-second sleep follows.
- The wait loop in `get_device` is modelled over a finite list of answers. A null result after all of them stands for "still waiting".
- Exceptions from remote calls inside a pass (queue, current playback, start playback, add to queue) are not modelled. Exceptions raised by the selection itself are modelled as the outcome `Raised`: an unknown playlist, an empty listing, or an item without a track or an artist.
- The inner `except: get_device()` of `get_device` is not modelled. It discards its result and can leave the target unbound.
- Persisting the history is not modelled: reading, creating and deleting `played_tracks.txt`, and appending the currently playing uri. The loaded lines enter as the constructor's `saved` argument.
- `clear_the_queue` is not modelled. It is an experimental loop driven entirely by remote `next_track` and `queue` calls.
- Not modelled: argument parsing, coloured and verbose output, the "playlist not found" message, stderr suppression, date formatting, OAuth set-up and the platform check.
- `str.upper()` is modelled for ASCII letters only. Python's full Unicode case mapping, including letters whose upper case is longer, is not modelled.
- `Session.Recover`: waiting for a device is modelled. The handler's own exception path is not modelled.
