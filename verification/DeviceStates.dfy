/**
 The devices of one adapter (gattlib_device_state_management.c): a list searched
 by device id without regard to case, used as a map from ids to states.
 */
module DeviceStates {
  import opened RefCounts

  datatype DeviceState = NOT_FOUND | CONNECTING | CONNECTED | DISCONNECTING | DISCONNECTED

  datatype Code = SUCCESS | ADAPTER_CLOSE | UNEXPECTED | BUSY

  /** gattlib_device_t; `handle` is its address. */
  datatype Device = Device(handle: nat, id: string, state: DeviceState)

  function Lower(c: char): char {
    if 'A' <= c <= 'Z' then (c as int + 32) as char else c
  }

  /** What g_ascii_strcasecmp and stricmp compare. */
  function Fold(s: string): (t: string)
    ensures |t| == |s| && forall i :: 0 <= i < |s| ==> t[i] == Lower(s[i])
  {
    seq(|s|, i requires 0 <= i < |s| => Lower(s[i]))
  }

  /** An upper-case letter of the ASCII alphabet and its lower-case form, in either order. */
  predicate TwoCases(a: char, b: char) {
    ('A' <= a <= 'Z' && b as int == a as int + 32) || ('A' <= b <= 'Z' && a as int == b as int + 32)
  }

  /** Two strings that differ in the case of letters only. */
  predicate SameUpToCase(s: string, t: string) {
    |s| == |t| && forall i :: 0 <= i < |s| ==> s[i] == t[i] || TwoCases(s[i], t[i])
  }

  lemma {:induction false} LowerIff(a: char, b: char)
    ensures Lower(a) == Lower(b) <==> a == b || TwoCases(a, b)
  {
  }

  /** Folding identifies exactly the strings that differ in case only. */
  lemma {:induction false} FoldIff(s: string, t: string)
    ensures Fold(s) == Fold(t) <==> SameUpToCase(s, t)
  {
    hide Lower, TwoCases;
    if |s| == |t| {
      forall i | 0 <= i < |s| ensures Fold(s)[i] == Fold(t)[i] <==> s[i] == t[i] || TwoCases(s[i], t[i]) {
        LowerIff(s[i], t[i]);
      }
    }
  }

  /** The position of the first device with the id, or the length. */
  function Find(list: seq<Device>, id: string): (i: nat)
    ensures i <= |list| && (i < |list| ==> Fold(list[i].id) == Fold(id))
    ensures forall j :: 0 <= j < i ==> Fold(list[j].id) != Fold(id)
  {
    if list == [] || Fold(list[0].id) == Fold(id) then 0 else 1 + Find(list[1..], id)
  }

  /** gattlib_device_get_state. */
  function GetState(list: seq<Device>, id: string): DeviceState {
    var i := Find(list, id);
    if i == |list| then NOT_FOUND else list[i].state
  }

  /** Only a disconnected device may be removed. */
  predicate Refused(state: DeviceState, wanted: DeviceState) {
    wanted == NOT_FOUND && state != NOT_FOUND && state != DISCONNECTED
  }

  /** gattlib_device_set_state under a valid adapter; a device that is created gets the address `address`. */
  function Updated(list: seq<Device>, id: string, wanted: DeviceState, address: nat): seq<Device> {
    var i := Find(list, id);
    if GetState(list, id) == NOT_FOUND then (if wanted == NOT_FOUND then list else list + [Device(address, id, wanted)])
    else if wanted == NOT_FOUND then (if list[i].state == DISCONNECTED then list[..i] + list[i + 1..] else list)
    else list[i := list[i].(state := wanted)]
  }

  /** Ids are unique and no listed device is NOT_FOUND. */
  ghost predicate Valid(list: seq<Device>) {
    && (forall i :: 0 <= i < |list| ==> list[i].state != NOT_FOUND)
    && (forall i, j :: 0 <= i < j < |list| ==> Fold(list[i].id) != Fold(list[j].id))
  }

  /** A device that is being used. */
  predicate Busy(state: DeviceState) {
    state == CONNECTING || state == CONNECTED || state == DISCONNECTING
  }

  /** The reference: each id is a state machine of its own, which takes every new state, but no removal while busy. */
  function Next(state: DeviceState, wanted: DeviceState): DeviceState {
    if wanted == NOT_FOUND && Busy(state) then state else wanted
  }

  lemma {:induction false} FindIs(list: seq<Device>, id: string, i: nat)
    requires Valid(list) && i < |list| && Fold(list[i].id) == Fold(id)
    ensures Find(list, id) == i && GetState(list, id) == list[i].state
  {
  }

  lemma {:induction false} FindsNone(list: seq<Device>, id: string)
    requires forall i :: 0 <= i < |list| ==> Fold(list[i].id) != Fold(id)
    ensures Find(list, id) == |list| && GetState(list, id) == NOT_FOUND
  {
  }

  lemma {:induction false} UpdatedIsValid(list: seq<Device>, id: string, wanted: DeviceState, address: nat)
    requires Valid(list)
    ensures Valid(Updated(list, id, wanted, address))
  {
    hide Fold;
  }

  /** Setting a state changes that id as the reference does, and no other. */
  lemma {:induction false} SetThenGet(list: seq<Device>, id: string, wanted: DeviceState, address: nat, other: string)
    requires Valid(list)
    ensures GetState(Updated(list, id, wanted, address), other) ==
            if SameUpToCase(other, id) then Next(GetState(list, id), wanted) else GetState(list, other)
  {
    FoldIff(other, id);
    hide SameUpToCase;
    UpdatedIsValid(list, id, wanted, address);
    if Fold(other) == Fold(id) { SetThenGetSame(list, id, wanted, address, other); }
    else { SetThenGetOther(list, id, wanted, address, other); }
  }

  lemma {:induction false} SetThenGetSame(list: seq<Device>, id: string, wanted: DeviceState, address: nat,
        other: string)
    requires Valid(list) && Valid(Updated(list, id, wanted, address)) && Fold(other) == Fold(id)
    ensures GetState(Updated(list, id, wanted, address), other) == Next(GetState(list, id), wanted)
  {
    hide Fold;
    var i, l := Find(list, id), Updated(list, id, wanted, address);
    if i < |l| && (i == |list| || wanted != NOT_FOUND || list[i].state != DISCONNECTED) {
      assert Fold(l[i].id) == Fold(id);
      FindIs(l, other, i);
    } else {
      FindsNone(l, other);
    }
  }

  lemma {:induction false} SetThenGetOther(list: seq<Device>, id: string, wanted: DeviceState, address: nat,
        other: string)
    requires Valid(list) && Valid(Updated(list, id, wanted, address)) && Fold(other) != Fold(id)
    ensures GetState(Updated(list, id, wanted, address), other) == GetState(list, other)
  {
    hide Fold;
    var i, j, l := Find(list, id), Find(list, other), Updated(list, id, wanted, address);
    if j == |list| {
      FindsNone(l, other);
    } else {
      var k := if |l| < |list| && i < j then j - 1 else j;
      assert l[k] == list[j];
      FindIs(l, other, k);
    }
  }

  // ----- addresses -----

  function Handles(list: seq<Device>): (s: seq<nat>)
    ensures |s| == |list| && forall i :: 0 <= i < |list| ==> s[i] == list[i].handle
  {
    seq(|list|, i requires 0 <= i < |list| => list[i].handle)
  }

  predicate Creates(list: seq<Device>, id: string, wanted: DeviceState) {
    GetState(list, id) == NOT_FOUND && wanted != NOT_FOUND
  }

  predicate Removes(list: seq<Device>, id: string, wanted: DeviceState) {
    wanted == NOT_FOUND && GetState(list, id) == DISCONNECTED
  }

  lemma {:induction false} HandlesWithout(list: seq<Device>, i: nat)
    requires i < |list|
    ensures multiset(Handles(list[..i] + list[i + 1..])) == multiset(Handles(list)) - multiset{list[i].handle}
    ensures list[i].handle in multiset(Handles(list))
  {
    var s := Handles(list);
    assert s == s[..i] + [list[i].handle] + s[i + 1..];
    assert Handles(list[..i] + list[i + 1..]) == s[..i] + s[i + 1..];
  }

  /** The list holds one address more, one less, or the same ones. */
  lemma {:induction false} UpdatedHandles(list: seq<Device>, id: string, wanted: DeviceState, address: nat)
    ensures var was, now := multiset(Handles(list)), multiset(Handles(Updated(list, id, wanted, address)));
            var i := Find(list, id);
            now == if Creates(list, id, wanted) then was + multiset{address}
                   else if Removes(list, id, wanted) then was - multiset{list[i].handle}
                   else was
    ensures Removes(list, id, wanted) ==>
              Find(list, id) < |list| && list[Find(list, id)].handle in multiset(Handles(list))
  {
    UpdatedShape(list, id, wanted, address);
    hide Fold, Find, GetState, Updated, Creates, Removes, Handles;
    if Creates(list, id, wanted) { HandlesWith(list, Device(address, id, wanted)); }
    if Removes(list, id, wanted) { HandlesWithout(list, Find(list, id)); }
  }

  lemma {:induction false} HandlesWith(list: seq<Device>, d: Device)
    ensures multiset(Handles(list + [d])) == multiset(Handles(list)) + multiset{d.handle}
  {
    assert Handles(list + [d]) == Handles(list) + [d.handle];
  }

  lemma {:induction false} UpdatedShape(list: seq<Device>, id: string, wanted: DeviceState, address: nat)
    ensures var i, l := Find(list, id), Updated(list, id, wanted, address);
            && (Creates(list, id, wanted) ==> !Removes(list, id, wanted) && l == list + [Device(address, id, wanted)])
            && (Removes(list, id, wanted) ==> i < |list| && l == list[..i] + list[i + 1..])
            && (!Creates(list, id, wanted) && !Removes(list, id, wanted) ==> Handles(l) == Handles(list))
  {
    hide Fold;
  }

  // ----- releasing them all -----

  predicate AllDisconnected(list: seq<Device>) {
    forall i :: 0 <= i < |list| ==> list[i].state == DISCONNECTED
  }

  /** gattlib_devices_free: the list gives up its reference to each disconnected device and forgets the others. */
  function FreeDevices(h: Heap, list: seq<Device>): Heap
    decreases |list|
  {
    if list == [] then h
    else
      var g := FreeDevices(h, list[..|list| - 1]);
      if list[|list| - 1].state == DISCONNECTED then Unref(g, list[|list| - 1].handle) else g
  }

  /** The addresses of the devices in a final state that are released, and of those that are forgotten. */
  function Released(list: seq<Device>): multiset<nat> {
    if list == [] then multiset{}
    else
      var rest := Released(list[..|list| - 1]);
      if list[|list| - 1].state == DISCONNECTED then rest + multiset{list[|list| - 1].handle} else rest
  }

  function Forgotten(list: seq<Device>): multiset<nat> {
    if list == [] then multiset{}
    else
      var rest := Forgotten(list[..|list| - 1]);
      if list[|list| - 1].state == DISCONNECTED then rest else rest + multiset{list[|list| - 1].handle}
  }

  lemma {:induction false} ReleasedOrForgotten(list: seq<Device>)
    ensures Released(list) + Forgotten(list) == multiset(Handles(list))
    ensures AllDisconnected(list) <==> Forgotten(list) == multiset{}
  {
    if list != [] {
      var init, last := list[..|list| - 1], list[|list| - 1];
      ReleasedOrForgotten(init);
      HandlesWith(init, last);
      assert list == init + [last];
      AllDisconnectedLast(init, last);
      hide Handles, AllDisconnected;
    }
  }

  lemma {:induction false} AllDisconnectedLast(init: seq<Device>, last: Device)
    ensures AllDisconnected(init + [last]) <==> AllDisconnected(init) && last.state == DISCONNECTED
  {
    if AllDisconnected(init + [last]) {
      forall i | 0 <= i < |init| ensures init[i].state == DISCONNECTED { assert (init + [last])[i] == init[i]; }
      assert (init + [last])[|init|] == last;
    }
  }

  lemma {:induction false} FreeDevicesCounted(h: Heap, refs: multiset<nat>, list: seq<Device>)
    requires Counted(h, refs) && Released(list) <= refs
    ensures Counted(FreeDevices(h, list), refs - Released(list))
  {
    hide Counted, Unref;
    if list != [] {
      var init, last := list[..|list| - 1], list[|list| - 1];
      assert Released(init) <= Released(list);
      FreeDevicesCounted(h, refs, init);
      if last.state == DISCONNECTED {
        assert Released(list)[last.handle] == Released(init)[last.handle] + 1;
        assert last.handle in refs - Released(init);
        UnrefCounted(FreeDevices(h, init), refs - Released(init), last.handle);
        assert refs - Released(init) - multiset{last.handle} == refs - Released(list);
      }
    } else {
      assert refs - Released(list) == refs;
    }
  }
}
