/** Expanding the requested names and flags into playlist ids (`get_playlist_ids`). */
module PlaylistResolver {
  import opened SpotifyTypes

  /** Id of the editorial "Made For You" category whose listing is queried. */
  const MadeForYouCategory: string := "0JQ5DAUnp4wcj0bCb3wh3S"

  /** The answer to the category query: a listing, or the service refusing access. */
  datatype CategoryResult = Denied | Listed(items: seq<Playlist>)

  /** A requested name matches a playlist when both upper-cased forms are equal. */
  predicate NameMatches(name: string, p: Playlist) {
    Upper(name) == Upper(p.name)
  }

  /** Id of the first user playlist whose name matches `name`, if any. */
  function FirstMatch(name: string, playlists: seq<Playlist>): Option<string>
    decreases |playlists|
  {
    if playlists == [] then None
    else if NameMatches(name, playlists[0]) then Some(playlists[0].id)
    else FirstMatch(name, playlists[1..])
  }

  function OptionToSeq(x: Option<string>): seq<string> {
    if x.Some? then [x.value] else []
  }

  /** Ids contributed by the requested names, one per matched name, in request order. */
  function NameMatchIds(names: seq<string>, playlists: seq<Playlist>): seq<string>
    decreases |names|
  {
    if names == [] then []
    else NameMatchIds(names[..|names| - 1], playlists) + OptionToSeq(FirstMatch(names[|names| - 1], playlists))
  }

  /** Ids of all user playlists in list order, except those named exactly "DJ". */
  function NonDJIds(playlists: seq<Playlist>): seq<string>
    decreases |playlists|
  {
    if playlists == [] then []
    else
      var last := playlists[|playlists| - 1];
      NonDJIds(playlists[..|playlists| - 1]) + (if last.name == "DJ" then [] else [last.id])
  }

  /** Ids of the category playlists whose name contains "Mix", in list order. */
  function MixIds(items: seq<Playlist>): seq<string>
    decreases |items|
  {
    if items == [] then []
    else
      var last := items[|items| - 1];
      MixIds(items[..|items| - 1]) + (if Contains(last.name, "Mix") then [last.id] else [])
  }

  /** The resolved list: name matches, then all user playlists, then the mixes; no de-duplication. */
  function PlaylistIds(names: seq<string>, allUser: bool, madeForYou: bool,
                       userPlaylists: seq<Playlist>, category: CategoryResult): seq<string>
  {
    NameMatchIds(names, userPlaylists)
    + (if allUser then NonDJIds(userPlaylists) else [])
    + (if madeForYou && category.Listed? then MixIds(category.items) else [])
  }

  /** A name equal to a playlist's name up to case resolves exactly as that name does. */
  lemma {:induction false} FirstMatchIgnoresCase(a: string, b: string, playlists: seq<Playlist>)
    requires Upper(a) == Upper(b)
    ensures FirstMatch(a, playlists) == FirstMatch(b, playlists)
    decreases |playlists|
  {
    if playlists != [] {
      FirstMatchIgnoresCase(a, b, playlists[1..]);
    }
  }

  /** The first matching playlist is the one whose id is added. */
  lemma {:induction false} FirstMatchIsFirst(name: string, playlists: seq<Playlist>, k: nat)
    requires k < |playlists| && NameMatches(name, playlists[k])
    requires forall j :: 0 <= j < k ==> !NameMatches(name, playlists[j])
    ensures FirstMatch(name, playlists) == Some(playlists[k].id)
    decreases k
  {
    if k > 0 {
      assert !NameMatches(name, playlists[0]);
      var rest := playlists[1..];
      assert forall j :: 0 <= j < k - 1 ==> rest[j] == playlists[j + 1];
      FirstMatchIsFirst(name, rest, k - 1);
    }
  }

  /** A name adds nothing exactly when no user playlist matches it. */
  lemma {:induction false} FirstMatchNoneIff(name: string, playlists: seq<Playlist>)
    ensures FirstMatch(name, playlists) == None <==>
            forall k :: 0 <= k < |playlists| ==> !NameMatches(name, playlists[k])
    decreases |playlists|
  {
    if playlists != [] {
      var rest := playlists[1..];
      FirstMatchNoneIff(name, rest);
      assert forall k :: 1 <= k < |playlists| ==> playlists[k] == rest[k - 1];
    }
  }

  /** Every requested name adds at most one id, and an added id is that of a matching playlist. */
  lemma {:induction false} NameMatchIdsAtMostOneEach(names: seq<string>, playlists: seq<Playlist>)
    ensures |NameMatchIds(names, playlists)| <= |names|
    ensures forall id :: id in NameMatchIds(names, playlists) ==>
              exists i, k :: 0 <= i < |names| && 0 <= k < |playlists| &&
                             NameMatches(names[i], playlists[k]) && playlists[k].id == id
    decreases |names|
  {
    if names != [] {
      var n := |names|;
      var front := names[..n - 1];
      NameMatchIdsAtMostOneEach(front, playlists);
      forall id | id in NameMatchIds(names, playlists)
        ensures exists i, k :: 0 <= i < |names| && 0 <= k < |playlists| &&
                               NameMatches(names[i], playlists[k]) && playlists[k].id == id
      {
        if id in NameMatchIds(front, playlists) {
          var i, k :| 0 <= i < |front| && 0 <= k < |playlists| &&
                      NameMatches(front[i], playlists[k]) && playlists[k].id == id;
          assert names[i] == front[i];
        } else {
          FirstMatchListed(names[n - 1], playlists);
        }
      }
    }
  }

  /** A found id belongs to a playlist matching the name. */
  lemma {:induction false} FirstMatchListed(name: string, playlists: seq<Playlist>)
    requires FirstMatch(name, playlists).Some?
    ensures exists k :: 0 <= k < |playlists| && NameMatches(name, playlists[k]) &&
                        playlists[k].id == FirstMatch(name, playlists).value
    decreases |playlists|
  {
    if !NameMatches(name, playlists[0]) {
      var rest := playlists[1..];
      FirstMatchListed(name, rest);
      var k :| 0 <= k < |rest| && NameMatches(name, rest[k]) && rest[k].id == FirstMatch(name, rest).value;
      assert playlists[k + 1] == rest[k];
    }
  }

  /** The names contribute nothing exactly when no requested name matches any user playlist. */
  lemma {:induction false} NameMatchIdsEmptyIff(names: seq<string>, playlists: seq<Playlist>)
    ensures NameMatchIds(names, playlists) == [] <==>
            forall i, k :: 0 <= i < |names| && 0 <= k < |playlists| ==> !NameMatches(names[i], playlists[k])
    decreases |names|
  {
    if names != [] {
      var n := |names|;
      var front := names[..n - 1];
      NameMatchIdsEmptyIff(front, playlists);
      FirstMatchNoneIff(names[n - 1], playlists);
      assert forall i :: 0 <= i < n - 1 ==> names[i] == front[i];
    }
  }

  /** A user playlist's id is included by the all flag exactly when some playlist with that id is not named "DJ". */
  lemma {:induction false} NonDJIdsMembership(playlists: seq<Playlist>, id: string)
    ensures id in NonDJIds(playlists) <==>
            exists k :: 0 <= k < |playlists| && playlists[k].name != "DJ" && playlists[k].id == id
    decreases |playlists|
  {
    if playlists != [] {
      var n := |playlists|;
      var front := playlists[..n - 1];
      NonDJIdsMembership(front, id);
      assert forall k :: 0 <= k < n - 1 ==> playlists[k] == front[k];
    }
  }

  /** Nothing is dropped by the all flag unless it is named "DJ": order and length are kept. */
  lemma {:induction false} NonDJIdsKeepsOthers(playlists: seq<Playlist>)
    requires forall k :: 0 <= k < |playlists| ==> playlists[k].name != "DJ"
    ensures |NonDJIds(playlists)| == |playlists|
    ensures forall k :: 0 <= k < |playlists| ==> NonDJIds(playlists)[k] == playlists[k].id
    decreases |playlists|
  {
    if playlists != [] {
      var n := |playlists|;
      var front := playlists[..n - 1];
      assert forall k :: 0 <= k < n - 1 ==> playlists[k] == front[k];
      NonDJIdsKeepsOthers(front);
    }
  }

  /** The all flag contributes nothing exactly when every user playlist is named "DJ". */
  lemma {:induction false} NonDJIdsEmptyIff(playlists: seq<Playlist>)
    ensures NonDJIds(playlists) == [] <==> forall k :: 0 <= k < |playlists| ==> playlists[k].name == "DJ"
    decreases |playlists|
  {
    if playlists != [] {
      var n := |playlists|;
      var front := playlists[..n - 1];
      NonDJIdsEmptyIff(front);
      assert forall k :: 0 <= k < n - 1 ==> playlists[k] == front[k];
    }
  }

  /** A category playlist's id is included exactly when a listed playlist with that id has "Mix" in its name. */
  lemma {:induction false} MixIdsMembership(items: seq<Playlist>, id: string)
    ensures id in MixIds(items) <==>
            exists k :: 0 <= k < |items| && Contains(items[k].name, "Mix") && items[k].id == id
    decreases |items|
  {
    if items != [] {
      var n := |items|;
      var front := items[..n - 1];
      MixIdsMembership(front, id);
      assert forall k :: 0 <= k < n - 1 ==> items[k] == front[k];
    }
  }

  /** The category contributes nothing exactly when no listed name contains "Mix". */
  lemma {:induction false} MixIdsEmptyIff(items: seq<Playlist>)
    ensures MixIds(items) == [] <==> forall k :: 0 <= k < |items| ==> !Contains(items[k].name, "Mix")
    decreases |items|
  {
    if items != [] {
      var n := |items|;
      var front := items[..n - 1];
      MixIdsEmptyIff(front);
      assert forall k :: 0 <= k < n - 1 ==> items[k] == front[k];
    }
  }

  /** The resolved list is empty exactly when no source contributes anything. */
  lemma PlaylistIdsEmptyIff(names: seq<string>, allUser: bool, madeForYou: bool,
                            userPlaylists: seq<Playlist>, category: CategoryResult)
    ensures PlaylistIds(names, allUser, madeForYou, userPlaylists, category) == [] <==>
            (forall i, k :: 0 <= i < |names| && 0 <= k < |userPlaylists| ==> !NameMatches(names[i], userPlaylists[k]))
            && (allUser ==> forall k :: 0 <= k < |userPlaylists| ==> userPlaylists[k].name == "DJ")
            && (madeForYou && category.Listed? ==>
                  forall k :: 0 <= k < |category.items| ==> !Contains(category.items[k].name, "Mix"))
  {
    NameMatchIdsEmptyIff(names, userPlaylists);
    NonDJIdsEmptyIff(userPlaylists);
    if category.Listed? {
      MixIdsEmptyIff(category.items);
    }
  }

  /** `get_playlist_ids`: `userPlaylists` is the user's playlist listing (re-queried by the
      program on each use; the model takes one answer), `category` the answer to the
      "Made For You" category query, consulted only under `madeForYou`. */
  method GetPlaylistIds(names: seq<string>, allUser: bool, madeForYou: bool,
                        userPlaylists: seq<Playlist>, category: CategoryResult)
    returns (ids: seq<string>)
    ensures ids == PlaylistIds(names, allUser, madeForYou, userPlaylists, category)
    ensures madeForYou && category.Denied? ==> ids == PlaylistIds(names, allUser, false, userPlaylists, category)
  {
    ids := [];
    var a := 0;
    while a < |names|
      invariant 0 <= a <= |names|
      invariant ids == NameMatchIds(names[..a], userPlaylists)
    {
      var name := names[a];
      ghost var before := ids;
      var i := 0;
      while i < |userPlaylists|
        invariant 0 <= i <= |userPlaylists| && ids == before
        invariant FirstMatch(name, userPlaylists[i..]) == FirstMatch(name, userPlaylists)
      {
        if Upper(name) == Upper(userPlaylists[i].name) {
          ids := ids + [userPlaylists[i].id];
          break;
        }
        assert userPlaylists[i..][1..] == userPlaylists[i + 1..];
        i := i + 1;
      }
      assert ids == before + OptionToSeq(FirstMatch(name, userPlaylists));
      assert names[..a + 1][..a] == names[..a];
      a := a + 1;
    }
    assert names[..a] == names;
    if allUser {
      var i := 0;
      ghost var before := ids;
      while i < |userPlaylists|
        invariant 0 <= i <= |userPlaylists|
        invariant ids == before + NonDJIds(userPlaylists[..i])
      {
        var p := userPlaylists[i];
        assert userPlaylists[..i + 1][..i] == userPlaylists[..i];
        if p.name != "DJ" {
          ids := ids + [p.id];
        }
        i := i + 1;
      }
      assert userPlaylists[..i] == userPlaylists;
    }
    if madeForYou {
      match category
      case Denied =>
        // the service refused the category: a warning only, the ids so far are kept
      case Listed(items) =>
        var i := 0;
        ghost var before := ids;
        while i < |items|
          invariant 0 <= i <= |items|
          invariant ids == before + MixIds(items[..i])
        {
          var item := items[i];
          assert items[..i + 1][..i] == items[..i];
          if Contains(item.name, "Mix") {
            ids := ids + [item.id];
          }
          i := i + 1;
        }
        assert items[..i] == items;
    }
  }
}
