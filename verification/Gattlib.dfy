/** The registry as the library runs it: the lists and counters are updated in place, by loops over the lists. */
module GattlibObject {
  import opened Octets
  import opened RefCounts
  import opened DeviceStates
  import opened Adapters
  import opened AdapterSafety

  /** What the loop over the adapters last saw of a device. */
  function LastSeen(listed: seq<nat>, info: map<nat, Adapter>, d: nat): (s: Option<DeviceState>)
    ensures s.Some? ==> exists a, k ::
                          a in listed && a in info && 0 <= k < |info[a].devices|
                          && info[a].devices[k] == Device(d, info[a].devices[k].id, s.value)
  {
    if listed == [] then None
    else
      var a := listed[|listed| - 1];
      var here := if a in info then StateOf(info[a].devices, d) else None;
      if here.Some? then here else LastSeen(listed[..|listed| - 1], info, d)
  }

  /** The state of the device at an address, if it is in the list. */
  function StateOf(list: seq<Device>, d: nat): (s: Option<DeviceState>)
    ensures s.Some? ==> exists k :: 0 <= k < |list| && list[k] == Device(d, list[k].id, s.value)
    ensures s.None? <==> d !in Handles(list)
  {
    if list == [] then None else if list[0].handle == d then Some(list[0].state) else StateOf(list[1..], d)
  }

  lemma {:induction false} StateOfUnique(list: seq<Device>, d: nat, k: nat)
    requires k < |list| && list[k].handle == d && multiset(Handles(list))[d] <= 1
    ensures StateOf(list, d) == Some(list[k].state)
  {
    var rest := list[1..];
    assert Handles(list) == [list[0].handle] + Handles(rest);
    if k > 0 {
      assert Handles(rest)[k - 1] == d;
      assert d in multiset(Handles(rest));
      StateOfUnique(rest, d, k - 1);
    }
  }

  lemma {:induction false} MembersLast(listed: seq<nat>, info: map<nat, Adapter>)
    requires listed != []
    ensures var a := listed[|listed| - 1];
            Members(listed, info) ==
            Members(listed[..|listed| - 1], info) + multiset(Handles(if a in info then info[a].devices else []))
  {
    hide Members, Handles;
    MembersSplit(listed, info);
    if |listed| == 1 {
      NoMembers(info);
      assert listed[1..] == [] == listed[..0];
    } else {
      MembersLast(listed[1..], info);
      MembersSplit(listed[..|listed| - 1], info);
      assert listed[1..][..|listed| - 2] == listed[..|listed| - 1][1..];
    }
  }

  lemma {:induction false} NoMembers(info: map<nat, Adapter>)
    ensures Members([], info) == multiset{}
  {
  }

  lemma {:induction false} SeenWhereListed(listed: seq<nat>, info: map<nat, Adapter>, d: nat, a: nat, k: nat)
    requires a in listed && a in info && k < |info[a].devices| && info[a].devices[k].handle == d
    requires Members(listed, info)[d] <= 1
    ensures LastSeen(listed, info, d) == Some(info[a].devices[k].state) && d in Members(listed, info)
  {
    MembersLast(listed, info);
    var init, last := listed[..|listed| - 1], listed[|listed| - 1];
    assert Handles(info[a].devices)[k] == d;
    if a == last {
      StateOfUnique(info[a].devices, d, k);
    } else {
      SeenWhereListed(init, info, d, a, k);
      hide LastSeen, Handles;
      assert multiset(Handles(if last in info then info[last].devices else []))[d] == 0;
    }
  }

  /** In a balanced run the overwriting is harmless: the answer is whether the device is listed as connected. */
  lemma {:induction false} ConnectedIsExact(steps: seq<Step>, d: nat)
    requires BalancedRun(steps)
    ensures var w := Run(START, steps);
            LastSeen(w.listed, w.info, d) == Some(CONNECTED) <==>
            exists a, k :: a in w.listed && a in w.info && 0 <= k < |w.info[a].devices|
                           && w.info[a].devices[k].handle == d && w.info[a].devices[k].state == CONNECTED
  {
    RunsAreExact(steps);
    hide Run, BalancedRun, Books, Members, Listing, Lists, Counted;
    var w := Run(START, steps);
    assert Members(w.listed, w.info)[d] <= 1;
    forall a, k | a in w.listed && a in w.info && 0 <= k < |w.info[a].devices| && w.info[a].devices[k].handle == d
      ensures LastSeen(w.listed, w.info, d) == Some(w.info[a].devices[k].state)
    {
      SeenWhereListed(w.listed, w.info, d, a, k);
    }
  }

  class Gattlib {
    var listed: seq<nat>
    var info: map<nat, Adapter>
    var adapters: Heap
    var devices: Heap

    function State(): World
      reads this
    {
      World(listed, info, adapters, devices)
    }

    constructor ()
      ensures State() == START
    {
      listed, info, adapters, devices := [], map[], RefCounts.EMPTY, RefCounts.EMPTY;
    }

    /** stricmp. */
    static method Compare(a: string, b: string) returns (d: int)
      requires '\0' !in a && '\0' !in b
      ensures d == 0 <==> SameUpToCase(a, b)
    {
      var i := 0;
      while true
        invariant 0 <= i <= |a| && i <= |b| && forall j :: 0 <= j < i ==> Lower(a[j]) == Lower(b[j])
        decreases |a| - i
      {
        d := (if i < |a| then Lower(a[i]) as int else 0) - (if i < |b| then Lower(b[i]) as int else 0);
        if d != 0 || i == |a| { break; }
        i := i + 1;
      }
      if d == 0 {
        assert Fold(a) == Fold(b);
      } else if |a| == |b| {
        assert Fold(a)[i] != Fold(b)[i];
      }
      FoldIff(a, b);
    }

    /** gattlib_adapter_from_id. */
    method FromId(id: string) returns (r: Option<nat>)
      ensures r == Adapters.FromId(listed, info, id)
      ensures r.Some? ==> r.value in listed && r.value in info && SameUpToCase(info[r.value].id, id)
      ensures r.None? ==> forall a :: a in listed && a in info ==> !SameUpToCase(info[a].id, id)
    {
      forall a | a in listed && a in info ensures Fold(info[a].id) == Fold(id) <==> SameUpToCase(info[a].id, id) {
        FoldIff(info[a].id, id);
      }
      hide SameUpToCase, Fold;
      var i := 0;
      while i < |listed|
        invariant 0 <= i <= |listed|
        invariant Adapters.FromId(listed, info, id) == Adapters.FromId(listed[i..], info, id)
      {
        if listed[i] in info && Fold(info[listed[i]].id) == Fold(id) { return Some(listed[i]); }
        i := i + 1;
      }
      return None;
    }

    /** g_slist_find_custom over the devices. */
    static method Search(list: seq<Device>, id: string) returns (i: nat)
      ensures i == Find(list, id) <= |list| && (i < |list| ==> SameUpToCase(list[i].id, id))
      ensures forall j :: 0 <= j < i ==> !SameUpToCase(list[j].id, id)
    {
      forall j | 0 <= j < |list| ensures Fold(list[j].id) == Fold(id) <==> SameUpToCase(list[j].id, id) {
        FoldIff(list[j].id, id);
      }
      hide SameUpToCase, Fold;
      i := 0;
      while i < |list|
        invariant 0 <= i <= |list| && forall j :: 0 <= j < i ==> Fold(list[j].id) != Fold(id)
      {
        if Fold(list[i].id) == Fold(id) { return; }
        i := i + 1;
      }
    }

    /** gattlib_device_get_state. */
    method DeviceGetState(a: nat, id: string) returns (state: DeviceState)
      requires a in info
      ensures state == GetState(info[a].devices, id)
    {
      var i := Search(info[a].devices, id);
      if i == |info[a].devices| { return NOT_FOUND; }
      return info[a].devices[i].state;
    }

    /** gattlib_device_set_state. */
    method DeviceSetState(a: nat, id: string, wanted: DeviceState) returns (code: Code)
      requires forall x :: x in listed ==> x in info
      modifies this`info, this`devices
      ensures State() == After(old(State()), SetState(a, id, wanted))
              && code == SetStateCode(old(State()), a, id, wanted)
    {
      if a !in listed { return ADAPTER_CLOSE; }
      var list := info[a].devices;
      var i := Search(list, id);
      hide Find, Unref;
      if i == |list| || list[i].state == NOT_FOUND {
        if wanted != NOT_FOUND {
          Replace(a, list + [Device(devices.next, id, wanted)]);
          devices := New(devices);
        }
        return SUCCESS;
      }
      if wanted != NOT_FOUND {
        Replace(a, list[i := list[i].(state := wanted)]);
        return SUCCESS;
      }
      if list[i].state != DISCONNECTED { return UNEXPECTED; }
      Replace(a, list[..i] + list[i + 1..]);
      devices := Unref(devices, list[i].handle);
      return SUCCESS;
    }

    method Replace(a: nat, list: seq<Device>)
      requires a in info
      modifies this`info
      ensures info == old(info)[a := old(info)[a].(devices := list)]
    {
      info := info[a := info[a].(devices := list)];
    }

    /** gattlib_devices_are_disconnected. */
    method AreDisconnected(a: nat) returns (all: bool)
      requires a in info
      ensures all == AllDisconnected(info[a].devices)
    {
      all := true;
      var i := 0;
      while i < |info[a].devices|
        invariant 0 <= i <= |info[a].devices| && all == AllDisconnected(info[a].devices[..i])
      {
        assert info[a].devices[..i + 1] == info[a].devices[..i] + [info[a].devices[i]];
        if info[a].devices[i].state != DISCONNECTED {
          all := false;
          assert !AllDisconnected(info[a].devices[..i + 1]) by
                 { assert info[a].devices[..i + 1][i].state != DISCONNECTED; }
        }
        i := i + 1;
      }
      assert info[a].devices[..|info[a].devices|] == info[a].devices;
    }

    /** gattlib_devices_free. */
    method DevicesFree(list: seq<Device>)
      modifies this`devices
      ensures devices == FreeDevices(old(devices), list)
    {
      var i := 0;
      while i < |list|
        invariant 0 <= i <= |list| && devices == FreeDevices(old(devices), list[..i])
      {
        assert list[..i + 1][..i] == list[..i];
        if list[i].state == DISCONNECTED { devices := Unref(devices, list[i].handle); }
        i := i + 1;
      }
      assert list[..|list|] == list;
    }

    /** gattlib_adapter_unref. */
    method AdapterUnref(a: nat)
      requires a in adapters.count ==> a in info
      modifies this
      ensures State() == After(old(State()), UnrefAdapter(a))
    {
      var last := LastRef(adapters, a);
      adapters := Unref(adapters, a);
      if last {
        DevicesFree(info[a].devices);
        listed := Without(listed, a);
        info := info - {a};
      }
    }

    /** gattlib_adapter_close, of an adapter that is not scanning. */
    method AdapterClose(a: nat) returns (code: Code)
      requires Listing(listed, info, adapters)
      modifies this
      ensures State() == After(old(State()), Close(a)) && code == CloseCode(old(State()), a)
    {
      if a !in listed { return ADAPTER_CLOSE; }
      var all := AreDisconnected(a);
      if !all { return BUSY; }
      AdapterUnref(a);
      return SUCCESS;
    }

    /** gattlib_adapter_open, up to the bus call: an adapter that is listed gets one more reference. */
    method OpenListed(name: Option<string>) returns (r: Option<nat>)
      modifies this`adapters
      ensures State() == After(old(State()), Lookup(name)) && r == Adapters.FromId(listed, info, ObjectPath(name))
    {
      r := FromId(ObjectPath(name));
      if r.Some? { adapters := Ref(adapters, r.value); }
    }

    /** gattlib_adapter_open, after the bus call. */
    method OpenNew(name: Option<string>) returns (a: nat)
      modifies this
      ensures State() == After(old(State()), Publish(name)) && a == old(adapters).next && a in listed
    {
      a := adapters.next;
      adapters := New(adapters);
      info := info[a := Adapter(ObjectPath(name), [])];
      listed := listed + [a];
    }

    /** gattlib_device_is_valid. */
    method DeviceIsValid(d: nat) returns (found: bool)
      ensures found <==> d in Members(listed, info)
    {
      found := false;
      var i := 0;
      while i < |listed|
        invariant 0 <= i <= |listed|
        invariant d in Members(listed, info) <==> found || d in Members(listed[i..], info)
      {
        var list := if listed[i] in info then info[listed[i]].devices else [];
        if d in Handles(list) { found := true; }
        i := i + 1;
      }
    }

    /** gattlib_connection_is_connected; each adapter that lists the device overwrites the answer. */
    method IsConnected(d: nat) returns (connected: bool)
      ensures connected == (LastSeen(listed, info, d) == Some(CONNECTED))
    {
      connected := false;
      var i := 0;
      while i < |listed|
        invariant 0 <= i <= |listed| && connected == (LastSeen(listed[..i], info, d) == Some(CONNECTED))
      {
        assert listed[..i + 1][..i] == listed[..i];
        var here := if listed[i] in info then StateOf(info[listed[i]].devices, d) else None;
        if here.Some? { connected := here.value == CONNECTED; }
        i := i + 1;
      }
      assert listed[..|listed|] == listed;
    }
  }
}
