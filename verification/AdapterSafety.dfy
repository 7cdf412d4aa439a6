/** Every balanced run keeps the adapter and device counters exact. */
module AdapterSafety {
  import opened Octets
  import opened RefCounts
  import opened DeviceStates
  import opened Adapters

  lemma {:induction false} RefAdapterKeeps(w: World, l: Ledger, a: nat)
    requires Inv(w, l) && a in l.adapters
    ensures Inv(w.(adapters := Ref(w.adapters, a)), l.(adapters := l.adapters + multiset{a}))
  {
    hide Lists, Single, Members;
    assert a in w.adapters.count;
    RefCounted(w.adapters, l.adapters, a);
  }

  lemma {:induction false} OpenedKeeps(w: World, l: Ledger, name: Option<string>)
    requires Inv(w, l)
    ensures Inv(Opened(w, name), Booked(w, l, Lookup(name)))
  {
    match FromId(w.listed, w.info, ObjectPath(name))
    case None =>
    case Some(a) =>
      assert a in w.adapters.count;
      RefAdapterKeeps(w, l, a);
  }

  lemma {:induction false} PublishedKeeps(w: World, l: Ledger, name: Option<string>)
    requires Inv(w, l)
    ensures Inv(Published(w, name), Booked(w, l, Publish(name)))
  {
    PublishedListing(w.listed, w.info, w.adapters, l.adapters, ObjectPath(name));
    NewCounted(w.adapters, l.adapters);
    hide ObjectPath, Single, Lists, Listing, Members, Counted, New;
  }

  lemma {:induction false} PublishedListing(listed: seq<nat>, info: map<nat, Adapter>, h: Heap, refs: multiset<nat>,
        id: string)
    requires Listing(listed, info, h) && Lists(info) && Counted(h, refs)
    ensures var a := h.next;
            var listed', info' := listed + [a], info[a := Adapter(id, [])];
            Listing(listed', info', New(h)) && Lists(info') && Members(listed', info') == Members(listed, info)
  {
    var a := h.next;
    var info' := info[a := Adapter(id, [])];
    assert a !in h.count && a !in listed;
    MembersFrame(listed, info, info');
    MembersAppend(listed, info', a);
    AppendedListing(listed, info, h, id);
    hide Members, Listing, Lists, Counted;
  }

  lemma {:induction false} AppendedListing(listed: seq<nat>, info: map<nat, Adapter>, h: Heap, id: string)
    requires Listing(listed, info, h) && Lists(info) && h.next !in listed
    ensures var info' := info[h.next := Adapter(id, [])];
            Listing(listed + [h.next], info', New(h)) && Lists(info')
  {
    hide Fold;
    assert forall x :: x in listed + [h.next] <==> x in listed || x == h.next;
  }

  lemma {:induction false} DroppedKeeps(w: World, l: Ledger, a: nat)
    requires Inv(w, l) && a in l.adapters
    ensures Inv(Dropped(w, a), Drop(w, l, a))
  {
    assert a in w.adapters.count && a in w.listed && a in w.info;
    UnrefCounted(w.adapters, l.adapters, a);
    if LastRef(w.adapters, a) {
      LastDropKeeps(w, l, a);
    } else {
      hide Lists, Single, Members, Counted;
    }
  }

  /** The last reference: the adapter's list gives up each disconnected device and forgets the others. */
  lemma {:induction false} LastDropKeeps(w: World, l: Ledger, a: nat)
    requires Inv(w, l) && a in l.adapters && a in w.info && a in w.listed && LastRef(w.adapters, a)
    requires Counted(Unref(w.adapters, a), l.adapters - multiset{a})
    ensures Inv(Dropped(w, a), Drop(w, l, a))
  {
    var list, members := w.info[a].devices, Members(w.listed, w.info);
    MembersWithout(w.listed, w.info, a);
    DroppedListing(w.listed, w.info, w.adapters, a);
    hide Members, Counted, Single, Without, FreeDevices, Listing, Lists, Unref, Forgotten;
    DevicesAfterFree(w.devices, members, l.forgotten, l.devices, list);
  }

  lemma {:induction false} DroppedListing(listed: seq<nat>, info: map<nat, Adapter>, h: Heap, a: nat)
    requires Listing(listed, info, h) && Lists(info) && LastRef(h, a)
    ensures Listing(Without(listed, a), info - {a}, Unref(h, a)) && Lists(info - {a})
  {
    WithoutIs(listed, a);
    hide Without, Valid;
  }

  lemma {:induction false} DevicesAfterFree(h: Heap, members: multiset<nat>, forgotten: multiset<nat>,
        held: multiset<nat>, list: seq<Device>)
    requires Counted(h, members + forgotten + held) && Single(members, forgotten) && multiset(Handles(list)) <= members
    ensures var members', forgotten' := members - multiset(Handles(list)), forgotten + Forgotten(list);
            Counted(FreeDevices(h, list), members' + forgotten' + held) && Single(members', forgotten')
  {
    ReleasedOrForgotten(list);
    hide Counted, Released, Forgotten, FreeDevices, Handles;
    FreeDevicesCounted(h, members + forgotten + held, list);
    assert members + forgotten + held - Released(list)
        == members - multiset(Handles(list)) + (forgotten + Forgotten(list)) + held;
  }

  lemma {:induction false} StateSetKeeps(w: World, l: Ledger, a: nat, id: string, wanted: DeviceState)
    requires Inv(w, l)
    ensures Inv(StateSet(w, a, id, wanted), l)
  {
    if a in w.listed {
      var list, members := w.info[a].devices, Members(w.listed, w.info);
      var next := w.info[a].(devices := Updated(list, id, wanted, w.devices.next));
      UpdatedIsValid(list, id, wanted, w.devices.next);
      MembersReplace(w.listed, w.info, a, next);
      ReplacedListing(w.listed, w.info, w.adapters, a, next);
      hide Members, Counted, Single, Updated, Find, GetState, Creates, Removes, Valid, Unref, New, Handles, Listing,
          Lists;
      DevicesAfterUpdate(w.devices, members, l.forgotten, l.devices, list, id, wanted);
    }
  }

  lemma {:induction false} ReplacedListing(listed: seq<nat>, info: map<nat, Adapter>, h: Heap, a: nat, next: Adapter)
    requires Listing(listed, info, h) && Lists(info) && a in listed && Valid(next.devices)
    ensures Listing(listed, info[a := next], h) && Lists(info[a := next])
  {
    hide Valid;
  }

  lemma {:induction false} DevicesAfterUpdate(
      h: Heap, members: multiset<nat>, forgotten: multiset<nat>, held: multiset<nat>, list: seq<Device>, id: string,
          wanted: DeviceState)
    requires Counted(h, members + forgotten + held) && Single(members, forgotten) && multiset(Handles(list)) <= members
    ensures var members' := members - multiset(Handles(list)) + multiset(Handles(Updated(list, id, wanted, h.next)));
            var h' := if Creates(list, id, wanted) then New(h)
                      else if Removes(list, id, wanted) then Unref(h, list[Find(list, id)].handle)
                      else h;
            Counted(h', members' + forgotten + held) && Single(members', forgotten)
  {
    UpdatedHandles(list, id, wanted, h.next);
    hide Updated, Handles, Find, GetState, Removes, Creates, Counted, Single, New, Unref;
    var was := multiset(Handles(list));
    if Creates(list, id, wanted) {
      MemberCreated(h, members, was, forgotten, held);
    } else if Removes(list, id, wanted) {
      MemberRemoved(h, members, was, forgotten, held, list[Find(list, id)].handle);
    } else {
      assert members - was + was == members;
    }
  }

  lemma {:induction false} MemberCreated(h: Heap, members: multiset<nat>, was: multiset<nat>, forgotten: multiset<nat>,
        held: multiset<nat>)
    requires Counted(h, members + forgotten + held) && Single(members, forgotten) && was <= members
    ensures var members' := members - was + (was + multiset{h.next});
            Counted(New(h), members' + forgotten + held) && Single(members', forgotten)
  {
    var refs := members + forgotten + held;
    NewCounted(h, refs);
    assert h.next !in refs;
    hide Counted, New;
    assert members - was + (was + multiset{h.next}) == members + multiset{h.next};
    assert refs + multiset{h.next} == members + multiset{h.next} + forgotten + held;
  }

  lemma {:induction false} MemberRemoved(
      h: Heap, members: multiset<nat>, was: multiset<nat>, forgotten: multiset<nat>, held: multiset<nat>, d: nat)
    requires Counted(h, members + forgotten + held) && Single(members, forgotten) && was <= members && d in was
    ensures var members' := members - was + (was - multiset{d});
            Counted(Unref(h, d), members' + forgotten + held) && Single(members', forgotten)
  {
    hide Counted, Unref;
    var refs := members + forgotten + held;
    UnrefCounted(h, refs, d);
    assert members - was + (was - multiset{d}) == members - multiset{d};
    assert refs - multiset{d} == members - multiset{d} + forgotten + held;
  }

  lemma {:induction false} RefDeviceKeeps(w: World, l: Ledger, d: nat)
    requires Inv(w, l) && (d in Members(w.listed, w.info) || d in l.devices)
    ensures Inv(w.(devices := Ref(w.devices, d)), l.(devices := l.devices + multiset{d}))
  {
    hide Members, Listing, Lists, Counted;
    var refs := Members(w.listed, w.info) + l.forgotten + l.devices;
    RefCounted(w.devices, refs, d);
    assert refs + multiset{d} == Members(w.listed, w.info) + l.forgotten + (l.devices + multiset{d});
  }

  lemma {:induction false} UnrefDeviceKeeps(w: World, l: Ledger, d: nat)
    requires Inv(w, l) && d in l.devices
    ensures Inv(w.(devices := Unref(w.devices, d)), l.(devices := l.devices - multiset{d}))
  {
    hide Members, Listing, Lists, Counted;
    var refs := Members(w.listed, w.info) + l.forgotten + l.devices;
    UnrefCounted(w.devices, refs, d);
    assert refs - multiset{d} == Members(w.listed, w.info) + l.forgotten + (l.devices - multiset{d});
  }

  lemma {:induction false} StepKeeps(w: World, l: Ledger, step: Step)
    requires Inv(w, l) && Balanced(w, l, step)
    ensures Inv(After(w, step), Booked(w, l, step))
  {
    hide Inv, Opened, Published, StateSet, Dropped, Drop, Members, AllDisconnected;
    match step
    case Lookup(name) => OpenedKeeps(w, l, name);
    case Publish(name) => PublishedKeeps(w, l, name);
    case RefAdapter(a) => RefAdapterKeeps(w, l, a);
    case UnrefAdapter(a) => DroppedKeeps(w, l, a);
    case Close(a) => if CloseCode(w, a) == SUCCESS { DroppedKeeps(w, l, a); }
    case SetState(a, id, wanted) => StateSetKeeps(w, l, a, id, wanted);
    case RefDevice(d) => RefDeviceKeeps(w, l, d);
    case UnrefDevice(d) => UnrefDeviceKeeps(w, l, d);
  }

  lemma {:induction false} RunsAreExact(steps: seq<Step>)
    requires BalancedRun(steps)
    ensures Inv(Run(START, steps), Books(steps))
  {
    if steps != [] {
      hide Inv, After, Booked, Balanced;
      var init := steps[..|steps| - 1];
      RunsAreExact(init);
      StepKeeps(Run(START, init), Books(init), steps[|steps| - 1]);
    }
  }
}
