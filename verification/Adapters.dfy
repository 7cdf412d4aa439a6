/**
 The global list of adapters and the references to adapters and devices
 (gattlib_adapter.c, gattlib_common_adapter.c,
 gattlib_device_state_management.c). Each section under the library's mutex is
 one step; opening an adapter is two, with a bus call in between.
 */
module Adapters {
  import opened Octets
  import opened RefCounts
  import opened DeviceStates

  const DEFAULT_ADAPTER := "hci0"

  /** The adapter's bus path, in a buffer of 20 octets. */
  function ObjectPath(name: Option<string>): string {
    var path := "/org/bluez/" + if name.None? then DEFAULT_ADAPTER else name.value;
    path[..Min(|path|, 19)]
  }

  datatype Adapter = Adapter(id: string, devices: seq<Device>)

  /** m_adapter_list, the live adapters with their reference counters, and those of the devices. */
  datatype World = World(listed: seq<nat>, info: map<nat, Adapter>, adapters: Heap, devices: Heap)

  const START := World([], map[], RefCounts.EMPTY, RefCounts.EMPTY)

  datatype Step =
    | Lookup(name: Option<string>)    // gattlib_adapter_open, first section
    | Publish(name: Option<string>)   // gattlib_adapter_open, second section
    | RefAdapter(a: nat)
    | UnrefAdapter(a: nat)
    | Close(a: nat)
    | SetState(a: nat, id: string, wanted: DeviceState)
    | RefDevice(d: nat)
    | UnrefDevice(d: nat)

  // ----- the operations -----

  /** gattlib_adapter_from_id: the first listed adapter with the id, without regard to case. */
  function FromId(listed: seq<nat>, info: map<nat, Adapter>, id: string): (r: Option<nat>)
    ensures r.Some? ==> r.value in listed && r.value in info && Fold(info[r.value].id) == Fold(id)
    ensures r.None? ==> forall a :: a in listed && a in info ==> Fold(info[a].id) != Fold(id)
    ensures r.Some? ==>
              exists k :: 0 <= k < |listed| && listed[k] == r.value
                && forall j :: 0 <= j < k && listed[j] in info ==> Fold(info[listed[j]].id) != Fold(id)
  {
    if listed == [] then None
    else if listed[0] in info && Fold(info[listed[0]].id) == Fold(id) then Some(listed[0])
    else FromId(listed[1..], info, id)
  }

  /** g_slist_remove: without the first occurrence. */
  function Without(s: seq<nat>, x: nat): seq<nat> {
    if s == [] then [] else if s[0] == x then s[1..] else [s[0]] + Without(s[1..], x)
  }

  function Opened(w: World, name: Option<string>): World {
    match FromId(w.listed, w.info, ObjectPath(name))
    case None => w
    case Some(a) => w.(adapters := Ref(w.adapters, a))
  }

  function Published(w: World, name: Option<string>): World {
    var a := w.adapters.next;
    w.(listed := w.listed + [a], info := w.info[a := Adapter(ObjectPath(name), [])], adapters := New(w.adapters))
  }

  function DevicesOf(w: World, a: nat): seq<Device> {
    if a in w.info then w.info[a].devices else []
  }

  /** gattlib_adapter_unref. */
  function Dropped(w: World, a: nat): World {
    if LastRef(w.adapters, a) then
      World(Without(w.listed, a), w.info - {a}, Unref(w.adapters, a), FreeDevices(w.devices, DevicesOf(w, a)))
    else w.(adapters := Unref(w.adapters, a))
  }

  function CloseCode(w: World, a: nat): Code {
    if a !in w.listed then ADAPTER_CLOSE else if !AllDisconnected(DevicesOf(w, a)) then BUSY else SUCCESS
  }

  function SetStateCode(w: World, a: nat, id: string, wanted: DeviceState): Code {
    if a !in w.listed then ADAPTER_CLOSE
    else if Refused(GetState(DevicesOf(w, a), id), wanted) then UNEXPECTED
    else SUCCESS
  }

  function StateSet(w: World, a: nat, id: string, wanted: DeviceState): World {
    if a !in w.listed || a !in w.info then w
    else
      var list := w.info[a].devices;
      w.(info := w.info[a := w.info[a].(devices := Updated(list, id, wanted, w.devices.next))],
         devices := if Creates(list, id, wanted) then New(w.devices)
                    else if Removes(list, id, wanted) then Unref(w.devices, list[Find(list, id)].handle)
                    else w.devices)
  }

  function After(w: World, step: Step): World {
    match step
    case Lookup(name) => Opened(w, name)
    case Publish(name) => Published(w, name)
    case RefAdapter(a) => w.(adapters := Ref(w.adapters, a))
    case UnrefAdapter(a) => Dropped(w, a)
    case Close(a) => if CloseCode(w, a) == SUCCESS then Dropped(w, a) else w
    case SetState(a, id, wanted) => StateSet(w, a, id, wanted)
    case RefDevice(d) => w.(devices := Ref(w.devices, d))
    case UnrefDevice(d) => w.(devices := Unref(w.devices, d))
  }

  // ----- who owns what -----

  /**
   The references handed out to callers and not given back, the devices an
   adapter forgot when it was freed, and the opens between their two sections.
   */
  datatype Ledger = Ledger(adapters: multiset<nat>, devices: multiset<nat>, forgotten: multiset<nat>,
      opening: multiset<Option<string>>)

  const NOTHING := Ledger(multiset{}, multiset{}, multiset{}, multiset{})

  function Drop(w: World, l: Ledger, a: nat): Ledger {
    l.(adapters := l.adapters - multiset{a},
       forgotten := if LastRef(w.adapters, a) then l.forgotten + Forgotten(DevicesOf(w, a)) else l.forgotten)
  }

  function Booked(w: World, l: Ledger, step: Step): Ledger {
    match step
    case Lookup(name) =>
      (match FromId(w.listed, w.info, ObjectPath(name))
       case None => l.(opening := l.opening + multiset{name})
       case Some(a) => l.(adapters := l.adapters + multiset{a}))
    case Publish(name) => l.(opening := l.opening - multiset{name}, adapters := l.adapters + multiset{w.adapters.next})
    case RefAdapter(a) => l.(adapters := l.adapters + multiset{a})
    case UnrefAdapter(a) => Drop(w, l, a)
    case Close(a) => if CloseCode(w, a) == SUCCESS then Drop(w, l, a) else l
    case SetState(_, _, _) => l
    case RefDevice(d) => l.(devices := l.devices + multiset{d})
    case UnrefDevice(d) => l.(devices := l.devices - multiset{d})
  }

  /** The devices in the lists of listed adapters. */
  function Members(listed: seq<nat>, info: map<nat, Adapter>): multiset<nat> {
    if listed == [] then multiset{}
    else
      multiset(Handles(if listed[0] in info then info[listed[0]].devices else [])) + Members(listed[1..], info)
  }

  /**
   A balanced step: callers give back only references they have, take further
   ones only to what they can see, and name only adapters they were once given.
   */
  predicate Balanced(w: World, l: Ledger, step: Step) {
    match step
    case Lookup(_) => true
    case Publish(name) => name in l.opening
    case RefAdapter(a) => a in l.adapters
    case UnrefAdapter(a) => a in l.adapters
    case Close(a) => a < w.adapters.next && (a in w.listed ==> a in l.adapters)
    case SetState(a, _, _) => a < w.adapters.next
    case RefDevice(d) => d in Members(w.listed, w.info) || d in l.devices
    case UnrefDevice(d) => d in l.devices
  }

  function Run(w: World, steps: seq<Step>): World {
    if steps == [] then w else After(Run(w, steps[..|steps| - 1]), steps[|steps| - 1])
  }

  function Books(steps: seq<Step>): Ledger {
    if steps == [] then NOTHING
    else
      var init := steps[..|steps| - 1];
      Booked(Run(START, init), Books(init), steps[|steps| - 1])
  }

  predicate BalancedRun(steps: seq<Step>) {
    steps == [] ||
    var init := steps[..|steps| - 1];
    BalancedRun(init) && Balanced(Run(START, init), Books(init), steps[|steps| - 1])
  }

  // ----- the invariant -----

  /** Exactly the live adapters are listed, once each. */
  ghost predicate Listing(listed: seq<nat>, info: map<nat, Adapter>, adapters: Heap) {
    && Distinct(listed)
    && (forall a :: a in listed <==> a in adapters.count)
    && (forall a :: a in listed <==> a in info)
  }

  ghost predicate Lists(info: map<nat, Adapter>) {
    forall a :: a in info ==> Valid(info[a].devices)
  }

  /** No device is in two places. */
  ghost predicate Single(members: multiset<nat>, forgotten: multiset<nat>) {
    forall d :: members[d] + forgotten[d] <= 1
  }

  ghost predicate Inv(w: World, l: Ledger) {
    var members := Members(w.listed, w.info);
    && Listing(w.listed, w.info, w.adapters) && Lists(w.info) && Counted(w.adapters, l.adapters)
    && Counted(w.devices, members + l.forgotten + l.devices) && Single(members, l.forgotten)
  }

  // ----- members under change -----

  lemma {:induction false} MembersFrame(listed: seq<nat>, info: map<nat, Adapter>, info': map<nat, Adapter>)
    requires forall a :: a in listed ==>
                (a in info <==> a in info') && (a in info ==> info[a].devices == info'[a].devices)
    ensures Members(listed, info) == Members(listed, info')
  {
    if listed != [] { MembersFrame(listed[1..], info, info'); }
  }

  lemma {:induction false} MembersAppend(listed: seq<nat>, info: map<nat, Adapter>, a: nat)
    requires a in info ==> info[a].devices == []
    ensures Members(listed + [a], info) == Members(listed, info)
  {
    if listed == [] {
      assert listed + [a] == [a] && [a][1..] == [];
    } else {
      MembersAppend(listed[1..], info, a);
      assert (listed + [a])[1..] == listed[1..] + [a];
    }
  }

  /** Replacing one adapter's devices replaces them among the members. */
  lemma {:induction false} MembersReplace(listed: seq<nat>, info: map<nat, Adapter>, a: nat, next: Adapter)
    requires Distinct(listed) && a in listed && a in info
    ensures var was := multiset(Handles(info[a].devices));
            && was <= Members(listed, info)
            && Members(listed, info[a := next]) == Members(listed, info) - was + multiset(Handles(next.devices))
  {
    if listed[0] == a {
      MembersFrame(listed[1..], info, info[a := next]);
    } else {
      MembersReplace(listed[1..], info, a, next);
    }
  }

  lemma {:induction false} MembersWithout(listed: seq<nat>, info: map<nat, Adapter>, a: nat)
    requires Distinct(listed) && a in listed && a in info
    ensures var was := multiset(Handles(info[a].devices));
            was <= Members(listed, info) && Members(Without(listed, a), info - {a}) == Members(listed, info) - was
  {
    hide Members, Handles;
    MembersSplit(listed, info);
    var was, first := multiset(Handles(info[a].devices)), multiset(Handles(if listed[0] in info
        then info[listed[0]].devices else []));
    if listed[0] == a {
      MembersFrame(listed[1..], info, info - {a});
      Shift(was, Members(listed[1..], info), multiset{});
    } else {
      var rest := Without(listed[1..], a);
      MembersSplit([listed[0]] + rest, info - {a});
      assert ([listed[0]] + rest)[1..] == rest;
      MembersWithout(listed[1..], info, a);
      Shift(first, Members(listed[1..], info), was);
    }
  }

  lemma Shift(a: multiset<nat>, b: multiset<nat>, c: multiset<nat>)
    requires c <= b
    ensures c <= a + b && a <= a + b && a + (b - c) == a + b - c && a + b - a == b
  {
  }

  lemma {:induction false} MembersSplit(listed: seq<nat>, info: map<nat, Adapter>)
    requires listed != []
    ensures Members(listed, info) ==
            multiset(Handles(if listed[0] in info then info[listed[0]].devices else [])) + Members(listed[1..], info)
  {
  }

  lemma {:induction false} WithoutIs(s: seq<nat>, x: nat)
    requires Distinct(s)
    ensures Distinct(Without(s, x)) && forall y :: y in Without(s, x) <==> y in s && y != x
  {
    if s != [] {
      WithoutIs(s[1..], x);
      assert s[0] !in s[1..];
      if s[0] != x {
        var rest := Without(s[1..], x);
        assert s[0] !in rest;
      }
    }
  }
}
