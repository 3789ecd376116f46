/** Choosing the playback device to target (`get_device`). */
module DeviceResolver {
  import opened SpotifyTypes

  /** Id of the last device in the list whose `is_active` flag is set; `None` when there is none. */
  function LastActiveId(devices: seq<Device>): Option<string>
    decreases |devices|
  {
    if devices == [] then None
    else if devices[|devices| - 1].isActive then devices[|devices| - 1].id
    else LastActiveId(devices[..|devices| - 1])
  }

  /** The device a single query picks: the last active one, or else the last one listed. */
  function ChosenDevice(devices: seq<Device>): Option<string> {
    if devices == [] then None
    else if Truthy(LastActiveId(devices)) then LastActiveId(devices)
    else devices[|devices| - 1].id
  }

  /** Without any active device, nothing is found by the first pass. */
  lemma {:induction false} NoActiveGivesNone(devices: seq<Device>)
    requires forall k :: 0 <= k < |devices| ==> !devices[k].isActive
    ensures LastActiveId(devices) == None
    decreases |devices|
  {
    if devices != [] {
      NoActiveGivesNone(devices[..|devices| - 1]);
    }
  }

  /** The first pass yields the id of the active device that no later device follows. */
  lemma {:induction false} LastActiveWins(devices: seq<Device>, k: nat)
    requires k < |devices| && devices[k].isActive
    requires forall j :: k < j < |devices| ==> !devices[j].isActive
    ensures LastActiveId(devices) == devices[k].id
    decreases |devices|
  {
    if k < |devices| - 1 {
      var front := devices[..|devices| - 1];
      assert front[k] == devices[k];
      LastActiveWins(front, k);
    }
  }

  /** Which device a query picks, case by case, and that it is always one of the listed ids. */
  lemma ChosenDeviceSpec(devices: seq<Device>)
    ensures devices == [] ==> ChosenDevice(devices) == None
    ensures forall k :: 0 <= k < |devices| && devices[k].isActive && Truthy(devices[k].id) &&
                        (forall j :: k < j < |devices| ==> !devices[j].isActive) ==>
                        ChosenDevice(devices) == devices[k].id
    ensures devices != [] && (forall k :: 0 <= k < |devices| ==> !devices[k].isActive) ==>
            ChosenDevice(devices) == devices[|devices| - 1].id
    ensures devices != [] ==> exists k :: 0 <= k < |devices| && ChosenDevice(devices) == devices[k].id
  {
    forall k | 0 <= k < |devices| && devices[k].isActive &&
               (forall j :: k < j < |devices| ==> !devices[j].isActive)
      ensures LastActiveId(devices) == devices[k].id
    {
      LastActiveWins(devices, k);
    }
    if devices != [] && forall k :: 0 <= k < |devices| ==> !devices[k].isActive {
      NoActiveGivesNone(devices);
    }
    if devices != [] {
      var id := ChosenDevice(devices);
      if Truthy(LastActiveId(devices)) {
        LastActiveIsListed(devices);
      } else {
        assert id == devices[|devices| - 1].id;
      }
    }
  }

  /** A non-null result of the first pass is the id of some listed device. */
  lemma {:induction false} LastActiveIsListed(devices: seq<Device>)
    requires LastActiveId(devices).Some?
    ensures exists k :: 0 <= k < |devices| && LastActiveId(devices) == devices[k].id
    decreases |devices|
  {
    var n := |devices|;
    if !devices[n - 1].isActive {
      var front := devices[..n - 1];
      LastActiveIsListed(front);
      var k :| 0 <= k < |front| && LastActiveId(front) == front[k].id;
      assert devices[k] == front[k];
    }
  }

  /** One query of the device list: the two passes of `get_device`. */
  method SelectDevice(devices: seq<Device>) returns (target: Option<string>)
    ensures target == ChosenDevice(devices)
  {
    target := None;
    // `any(devices)`: a device entry is a non-empty record, so this is non-emptiness
    if |devices| > 0 {
      var i := 0;
      while i < |devices|
        invariant 0 <= i <= |devices|
        invariant target == LastActiveId(devices[..i])
      {
        if devices[i].isActive {
          target := devices[i].id;
        }
        assert devices[..i + 1][..i] == devices[..i];
        i := i + 1;
      }
      assert devices[..i] == devices;
      if !Truthy(target) {
        var j := 0;
        while j < |devices|
          invariant 0 <= j <= |devices|
          invariant j > 0 ==> target == devices[j - 1].id
        {
          target := devices[j].id;
          j := j + 1;
        }
      }
    }
  }

  /** `get_device(wait)`: `polls` holds the successive answers of the device query.
      Without waiting only the first answer is used; with waiting the query is repeated
      while the result is null, and `used` is the answer that ended the wait. A null
      result with waiting means every supplied answer was null, i.e. the program
      would still be waiting. */
  method GetDevice(wait: bool, polls: seq<seq<Device>>) returns (target: Option<string>, used: nat)
    requires |polls| > 0
    ensures used < |polls| && target == ChosenDevice(polls[used])
    ensures !wait ==> used == 0
    ensures wait ==> forall j :: 0 <= j < used ==> ChosenDevice(polls[j]) == None
    ensures wait ==> (target == None <==> forall j :: 0 <= j < |polls| ==> ChosenDevice(polls[j]) == None)
  {
    target := SelectDevice(polls[0]);
    used := 0;
    if wait && target == None {
      while target == None && used + 1 < |polls|
        invariant used < |polls| && target == ChosenDevice(polls[used])
        invariant forall j :: 0 <= j < used ==> ChosenDevice(polls[j]) == None
      {
        used := used + 1;
        target := SelectDevice(polls[used]);
      }
    }
  }
}
