/** What callers of the adapter and device registry can rely on, over every balanced run. */
module AdapterTheorems {
  import opened Octets
  import opened RefCounts
  import opened DeviceStates
  import opened Adapters
  import opened AdapterSafety

  // ----- lifetimes -----

  /** An adapter is listed exactly while its counter is positive, counts its callers' references and is freed once. */
  lemma {:induction false} AdapterLifetimes(steps: seq<Step>, a: nat)
    requires BalancedRun(steps)
    ensures var w, held := Run(START, steps), Books(steps).adapters;
            && !w.adapters.fault && Distinct(w.listed) && Distinct(w.adapters.freed)
            && (a in w.listed <==> a in w.adapters.count && w.adapters.count[a] > 0)
            && (a in w.listed <==> a in held) && (a in w.listed ==> w.adapters.count[a] == held[a])
            && (a in w.adapters.freed <==> a < w.adapters.next && a !in w.listed)
  {
    RunsAreExact(steps);
    hide Run, Books, BalancedRun, Members;
  }

  /**
   A device's counter is its list membership plus the references held, unless
   its adapter forgot it; it is freed once.
   */
  lemma {:induction false} DeviceLifetimes(steps: seq<Step>, d: nat)
    requires BalancedRun(steps)
    ensures var w, l := Run(START, steps), Books(steps);
            var member := Members(w.listed, w.info)[d];
            && !w.devices.fault && Distinct(w.devices.freed) && member + l.forgotten[d] <= 1
            && (d in w.devices.count ==> w.devices.count[d] == member + l.forgotten[d] + l.devices[d])
            && (d in w.devices.freed <==> d < w.devices.next && member + l.forgotten[d] + l.devices[d] == 0)
            && (d in w.devices.count <==> d < w.devices.next && d !in w.devices.freed)
  {
    RunsAreExact(steps);
    hide Run, Books, BalancedRun, Members, Listing, Lists;
    var w, l := Run(START, steps), Books(steps);
    assert (Members(w.listed, w.info) + l.forgotten + l.devices)[d] == Members(w.listed, w.info)[d] + l.forgotten[d] +
           l.devices[d];
  }

  /**
   The last release of an adapter whose devices are all disconnected: each of
   its devices loses the list's reference, once, and is freed unless a callback
   holds it; other devices are untouched.
   */
  lemma {:induction false} FinalRelease(w: World, l: Ledger, a: nat, d: nat)
    requires Inv(w, l) && a in l.adapters && LastRef(w.adapters, a) && AllDisconnected(DevicesOf(w, a))
    ensures var w', mine := After(w, UnrefAdapter(a)), multiset(Handles(DevicesOf(w, a)));
            && a !in w'.listed && a in w'.adapters.freed
            && (d in mine && d in l.devices ==>
                 d in w'.devices.count && w'.devices.count[d] == l.devices[d] == w.devices.count[d] - 1)
            && (d in mine && d !in l.devices ==> d in w'.devices.freed && d !in w.devices.freed)
            && (d !in mine ==> (d in w'.devices.freed <==> d in w.devices.freed)
                               && (d in w.devices.count ==>
                                    d in w'.devices.count && w'.devices.count[d] == w.devices.count[d]))
  {
    hide Inv, Members, Handles, AllDisconnected, Counted, Dropped, LastRef, Single, DevicesOf;
    AdapterFreed(w, l, a);
    FinalDevices(w, l, a);
    var mine, members := multiset(Handles(DevicesOf(w, a))), Members(w.listed, w.info);
    DeviceReleased(w.devices, Dropped(w, a).devices, members, mine, l.forgotten, l.devices, d);
  }

  lemma {:induction false} FinalDevices(w: World, l: Ledger, a: nat)
    requires Inv(w, l) && a in l.adapters && LastRef(w.adapters, a) && AllDisconnected(DevicesOf(w, a))
    ensures var members, mine := Members(w.listed, w.info), multiset(Handles(DevicesOf(w, a)));
            && Counted(w.devices, members + l.forgotten + l.devices) && Single(members, l.forgotten) && mine <= members
            && Counted(Dropped(w, a).devices, members - mine + l.forgotten + l.devices)
  {
    assert a in w.adapters.count && a in w.listed && a in w.info;
    var list, members := w.info[a].devices, Members(w.listed, w.info);
    MembersWithout(w.listed, w.info, a);
    ReleasedOrForgotten(list);
    hide Lists, Members, Counted, Handles, FreeDevices, Released, Forgotten, AllDisconnected, Without, Single;
    DevicesAfterFree(w.devices, members, l.forgotten, l.devices, list);
    assert l.forgotten + Forgotten(list) == l.forgotten;
  }

  lemma {:induction false} AdapterFreed(w: World, l: Ledger, a: nat)
    requires Inv(w, l) && a in l.adapters && LastRef(w.adapters, a)
    ensures var w' := Dropped(w, a); a !in w'.listed && a in w'.adapters.freed && w'.devices.next == w.devices.next
  {
    WithoutIs(w.listed, a);
    FreeKeepsNext(w.devices, DevicesOf(w, a));
  }

  lemma {:induction false} FreeKeepsNext(h: Heap, list: seq<Device>)
    ensures FreeDevices(h, list).next == h.next
  {
    if list != [] { FreeKeepsNext(h, list[..|list| - 1]); }
  }

  lemma {:induction false} DeviceReleased(
      h: Heap, h': Heap, members: multiset<nat>, mine: multiset<nat>, forgotten: multiset<nat>, held: multiset<nat>,
          d: nat)
    requires Counted(h, members + forgotten + held) && Single(members, forgotten) && mine <= members
             && h.next == h'.next
    requires Counted(h', members - mine + forgotten + held)
    ensures d in mine && d in held ==> d in h'.count && h'.count[d] == held[d] == h.count[d] - 1
    ensures d in mine && d !in held ==> d in h'.freed && d !in h.freed
    ensures d !in mine ==> (d in h'.freed <==> d in h.freed) && (d in h.count ==>
              d in h'.count && h'.count[d] == h.count[d])
  {
    assert mine[d] <= members[d] <= 1;
    assert (members + forgotten + held)[d] == members[d] + forgotten[d] + held[d];
    assert (members - mine + forgotten + held)[d] == members[d] - mine[d] + forgotten[d] + held[d];
  }

  // ----- forgotten devices -----

  /** Whether a step frees an adapter while one of its devices is not disconnected. */
  predicate Strands(w: World, step: Step) {
    step.UnrefAdapter? && LastRef(w.adapters, step.a) && !AllDisconnected(DevicesOf(w, step.a))
  }

  predicate NeverStrands(steps: seq<Step>) {
    steps == [] || (NeverStrands(steps[..|steps| - 1]) && !Strands(Run(START, steps[..|steps| - 1]),
        steps[|steps| - 1]))
  }

  /** Devices are forgotten exactly by such steps; closing never does it, since it refuses. */
  lemma {:induction false} ForgottenExactlyWhenStranded(steps: seq<Step>)
    ensures Books(steps).forgotten == multiset{} <==> NeverStrands(steps)
  {
    if steps != [] {
      var init, step := steps[..|steps| - 1], steps[|steps| - 1];
      ForgottenExactlyWhenStranded(init);
      hide Run, Booked, Strands;
      ForgottenByStep(Run(START, init), Books(init), step);
    }
  }

  lemma {:induction false} ForgottenByStep(w: World, l: Ledger, step: Step)
    ensures Booked(w, l, step).forgotten == multiset{} <==> l.forgotten == multiset{} && !Strands(w, step)
  {
    hide Forgotten, AllDisconnected, FromId, Drop, ObjectPath;
    if step.UnrefAdapter? || step.Close? { DropForgets(w, l, step.a); }
  }

  lemma {:induction false} DropForgets(w: World, l: Ledger, a: nat)
    ensures Drop(w, l, a).forgotten == multiset{} <==>
            l.forgotten == multiset{} && (LastRef(w.adapters, a) ==> AllDisconnected(DevicesOf(w, a)))
  {
    hide Forgotten, AllDisconnected, DevicesOf;
    ReleasedOrForgotten(DevicesOf(w, a));
    BothEmpty(l.forgotten, Forgotten(DevicesOf(w, a)));
  }

  lemma {:induction false} BothEmpty(a: multiset<nat>, b: multiset<nat>)
    ensures a + b == multiset{} <==> a == multiset{} && b == multiset{}
  {
    if a + b == multiset{} {
      forall x ensures a[x] == 0 && b[x] == 0 { assert (a + b)[x] == 0; }
    }
  }

  /** A forgotten device is never freed. */
  lemma {:induction false} ForgottenIsLeaked(steps: seq<Step>, more: seq<Step>, d: nat)
    requires BalancedRun(steps + more) && d in Books(steps).forgotten
    ensures d in Books(steps + more).forgotten && d !in Run(START, steps + more).devices.freed
    decreases more
  {
    if more == [] {
      assert steps + more == steps;
    } else {
      var init := more[..|more| - 1];
      assert (steps + more)[..|steps + more| - 1] == steps + init;
      ForgottenIsLeaked(steps, init, d);
      ForgottenGrows(Run(START, steps + init), Books(steps + init), more[|more| - 1]);
    }
    hide Run, Balanced, Booked, Members;
    DeviceLifetimes(steps + more, d);
  }

  lemma {:induction false} ForgottenGrows(w: World, l: Ledger, step: Step)
    ensures l.forgotten <= Booked(w, l, step).forgotten
  {
    hide Forgotten, FromId, AllDisconnected;
  }

  /** A run one step longer. */
  lemma {:induction false} Longer(steps: seq<Step>, step: Step)
    ensures var s := steps + [step];
            && Run(START, s) == After(Run(START, steps), step)
               && Books(s) == Booked(Run(START, steps), Books(steps), step)
            && (BalancedRun(s) <==> BalancedRun(steps) && Balanced(Run(START, steps), Books(steps), step))
  {
    hide After, Booked, Balanced;
    assert (steps + [step])[..|steps|] == steps;
  }

  /** The opener closes while a discovery callback holds the adapter; the callback connects a device and lets go. */
  function Stranding(name: Option<string>, id: string): seq<Step> {
    [Lookup(name), Publish(name), RefAdapter(0), Close(0), SetState(0, id, CONNECTED), UnrefAdapter(0)]
  }

  /** In that run, which the library itself makes, nobody is left who could free the device. */
  lemma {:induction false} StrandedDevice(name: Option<string>, id: string)
    ensures var steps := Stranding(name, id);
            && BalancedRun(steps) && CloseCode(Run(START, steps[..3]), 0) == SUCCESS
            && Run(START, steps).listed == [] && Books(steps).adapters == multiset{}
               && Books(steps).devices == multiset{}
            && 0 in Run(START, steps).devices.count
  {
    hide ObjectPath, Fold, Run, Books, BalancedRun, After, Booked, Balanced, CloseCode;
    OpenedAlone(name);
    var s2 := [Lookup(name), Publish(name)];
    var s3, connect := s2 + [RefAdapter(0)], SetState(0, id, CONNECTED);
    var s4 := s3 + [Close(0)];
    var s5 := s4 + [connect];
    Longer(s2, RefAdapter(0));
    Longer(s3, Close(0));
    Longer(s4, connect);
    Longer(s5, UnrefAdapter(0));
    assert s5 + [UnrefAdapter(0)] == Stranding(name, id) && Stranding(name, id)[..3] == s3;
    HeldAndClosed(Run(START, s2), Books(s2));
    FirstDevice(Run(START, s4), Books(s4), id);
    LeaveConnected(Run(START, s5), Books(s5), id);
  }

  lemma {:induction false} HeldAndClosed(w: World, l: Ledger)
    requires w.listed == [0] && 0 in w.info && w.info[0].devices == [] && w.adapters == Heap(map[0 := 1], [], 1, false)
    requires l.adapters == multiset{0}
    ensures var u, m := After(w, RefAdapter(0)), Booked(w, l, RefAdapter(0));
            && Balanced(w, l, RefAdapter(0)) && Balanced(u, m, Close(0)) && CloseCode(u, 0) == SUCCESS
            && After(u, Close(0)) == w && Booked(u, m, Close(0)) == l
  {
    assert w.adapters.count[0 := 2][0 := 1] == w.adapters.count;
  }

  lemma {:induction false} FirstDevice(w: World, l: Ledger, id: string)
    requires w.listed == [0] && 0 in w.info && w.info[0].devices == [] && w.devices == RefCounts.EMPTY
             && w.adapters.count == map[0 := 1]
    requires w.adapters.next == 1
    ensures var step := SetState(0, id, CONNECTED);
            var w' := After(w, step);
            && Balanced(w, l, step) && Booked(w, l, step) == l && w'.listed == [0] && w'.adapters.count == map[0 := 1]
            && DevicesOf(w', 0) == [Device(0, id, CONNECTED)] && w'.devices.count == map[0 := 1]
  {
    hide Fold;
    assert Updated([], id, CONNECTED, 0) == [Device(0, id, CONNECTED)];
  }

  lemma {:induction false} LeaveConnected(w: World, l: Ledger, id: string)
    requires w.listed == [0] && w.adapters.count == map[0 := 1] && DevicesOf(w, 0) == [Device(0, id, CONNECTED)]
    requires w.devices.count == map[0 := 1] && l.adapters == multiset{0}
    ensures var step := UnrefAdapter(0);
            var w' := After(w, step);
            && Balanced(w, l, step) && w'.listed == [] && 0 in w'.devices.count
            && Booked(w, l, step).devices == l.devices && Booked(w, l, step).adapters == multiset{}
  {
    var list := [Device(0, id, CONNECTED)];
    assert list[..0] == [];
    assert FreeDevices(w.devices, list) == w.devices;
  }

  lemma {:induction false} OpenedAlone(name: Option<string>)
    ensures var s := [Lookup(name), Publish(name)];
            && BalancedRun(s) && Books(s) == Ledger(multiset{0}, multiset{}, multiset{}, multiset{})
            && Run(START, s) == World([0], map[0 := Adapter(ObjectPath(name), [])], Heap(map[0 := 1], [], 1, false),
               RefCounts.EMPTY)
  {
    Longer([], Lookup(name));
    hide ObjectPath, Fold;
    assert [] + [Lookup(name)] == [Lookup(name)];
    Longer([Lookup(name)], Publish(name));
    assert [Lookup(name)] + [Publish(name)] == [Lookup(name), Publish(name)];
  }

  // ----- states -----

  /** What the calls made so far for an adapter and an id, in any spelling, should have led to. */
  function Ideal(steps: seq<Step>, a: nat, id: string): DeviceState {
    if steps == [] then NOT_FOUND
    else
      var before, step := Ideal(steps[..|steps| - 1], a, id), steps[|steps| - 1];
      if step.SetState? && step.a == a && SameUpToCase(step.id, id) then Next(before, step.wanted) else before
  }

  lemma {:induction false} IdealBeforeBirth(steps: seq<Step>, a: nat, id: string)
    requires BalancedRun(steps) && a >= Run(START, steps).adapters.next
    ensures Ideal(steps, a, id) == NOT_FOUND
  {
    if steps != [] {
      var init := steps[..|steps| - 1];
      NextGrows(Run(START, init), steps[|steps| - 1]);
      hide After, SameUpToCase, Booked;
      IdealBeforeBirth(init, a, id);
    }
  }

  lemma {:induction false} NextGrows(w: World, step: Step)
    ensures w.adapters.next <= After(w, step).adapters.next <= w.adapters.next + 1
    ensures !step.Publish? ==> After(w, step).adapters.next == w.adapters.next
  {
    hide FreeDevices, Without, Updated, FromId, AllDisconnected;
  }

  /** One step changes the states of a surviving adapter's devices only by setting them. */
  lemma {:induction false} StepStates(w: World, l: Ledger, step: Step, a: nat, id: string)
    requires Inv(w, l) && a in w.listed && a in After(w, step).listed
    ensures GetState(DevicesOf(After(w, step), a), id) ==
            if step.SetState? && step.a == a && SameUpToCase(step.id, id)
            then Next(GetState(DevicesOf(w, a), id), step.wanted)
            else GetState(DevicesOf(w, a), id)
  {
    if step.SetState? && step.a == a {
      SetThenGet(w.info[a].devices, step.id, step.wanted, w.devices.next, id);
      FoldIff(step.id, id);
      FoldIff(id, step.id);
      if Fold(step.id) == Fold(id) { SameState(w.info[a].devices, step.id, id); }
      hide Updated, GetState, Find, Fold, SameUpToCase;
    } else {
      OtherDevices(w, l, step, a);
    }
  }

  lemma {:induction false} SameState(list: seq<Device>, id: string, other: string)
    requires Fold(id) == Fold(other)
    ensures Find(list, id) == Find(list, other) && GetState(list, id) == GetState(list, other)
  {
  }

  lemma {:induction false} OtherDevices(w: World, l: Ledger, step: Step, a: nat)
    requires Inv(w, l) && a in w.listed && a in After(w, step).listed && !(step.SetState? && step.a == a)
    ensures DevicesOf(After(w, step), a) == DevicesOf(w, a)
  {
    hide FreeDevices, Updated, FromId, AllDisconnected, Lists, Single, Members, Find, Removes, Creates;
    if step.UnrefAdapter? || step.Close? { WithoutIs(w.listed, step.a); }
    assert a in w.adapters.count && w.adapters.next !in w.adapters.count;
  }

  /**
   The registry is a map from ids to states that ignores case: after any
   balanced run, in every live adapter, each id has the state that the calls
   naming it in any spelling, and no others, lead to.
   */
  lemma {:induction false} StatesAreIndependent(steps: seq<Step>, a: nat, id: string)
    requires BalancedRun(steps) && a in Run(START, steps).listed
    ensures GetState(DevicesOf(Run(START, steps), a), id) == Ideal(steps, a, id)
  {
    var init, step := steps[..|steps| - 1], steps[|steps| - 1];
    var w := Run(START, init);
    RunsAreExact(init);
    if a in w.listed {
      hide After, Balanced, Booked, Inv, SameUpToCase;
      StepStates(w, Books(init), step, a, id);
      StatesAreIndependent(init, a, id);
    } else {
      Newborn(w, step, a);
      IdealBeforeBirth(init, a, id);
    }
  }

  /** In every live adapter ids stay unique, whatever their case, and no listed device is NOT_FOUND. */
  lemma {:induction false} DeviceIdsAreUnique(steps: seq<Step>, a: nat, i: nat, j: nat)
    requires BalancedRun(steps) && a in Run(START, steps).listed && i < j < |DevicesOf(Run(START, steps), a)|
    ensures var list := DevicesOf(Run(START, steps), a);
            list[i].state != NOT_FOUND && list[j].state != NOT_FOUND && !SameUpToCase(list[i].id, list[j].id)
  {
    RunIsValid(steps, a);
    hide Run, BalancedRun;
    FoldIff(DevicesOf(Run(START, steps), a)[i].id, DevicesOf(Run(START, steps), a)[j].id);
  }

  lemma {:induction false} RunIsValid(steps: seq<Step>, a: nat)
    requires BalancedRun(steps) && a in Run(START, steps).listed
    ensures Valid(DevicesOf(Run(START, steps), a))
  {
    RunsAreExact(steps);
    hide Run, Books, BalancedRun, Members, Counted, Single;
  }

  // ----- the codes callers get -----

  /** Setting a state is refused exactly for an unlisted adapter and for the removal of a device that is busy. */
  lemma {:induction false} SetStateCodes(steps: seq<Step>, a: nat, id: string, wanted: DeviceState)
    requires BalancedRun(steps)
    ensures SetStateCode(Run(START, steps), a, id, wanted) ==
            if a !in Run(START, steps).listed then ADAPTER_CLOSE
            else if wanted == NOT_FOUND && Busy(Ideal(steps, a, id)) then UNEXPECTED
            else SUCCESS
  {
    if a in Run(START, steps).listed { StatesAreIndependent(steps, a, id); }
    hide Run, BalancedRun, Ideal, GetState;
  }

  /** Closing is refused exactly for an unlisted adapter and while some device of it is busy. */
  lemma {:induction false} CloseCodes(steps: seq<Step>, a: nat)
    requires BalancedRun(steps)
    ensures a !in Run(START, steps).listed ==> CloseCode(Run(START, steps), a) == ADAPTER_CLOSE
    ensures a in Run(START, steps).listed ==>
              CloseCode(Run(START, steps), a) == if exists id :: Busy(Ideal(steps, a, id)) then BUSY else SUCCESS
  {
    var w := Run(START, steps);
    if a in w.listed {
      RunIsValid(steps, a);
      forall id ensures GetState(DevicesOf(w, a), id) == Ideal(steps, a, id) { StatesAreIndependent(steps, a, id); }
      hide Run, BalancedRun, Ideal;
      SomeBusy(DevicesOf(w, a));
      hide GetState, AllDisconnected;
      if id :| Busy(GetState(DevicesOf(w, a), id)) { assert Busy(Ideal(steps, a, id)); }
    }
  }

  lemma {:induction false} SomeBusy(list: seq<Device>)
    requires Valid(list)
    ensures !AllDisconnected(list) <==> exists id :: Busy(GetState(list, id))
  {
    hide Fold;
    if !AllDisconnected(list) {
      var i :| 0 <= i < |list| && list[i].state != DISCONNECTED;
      FindIs(list, list[i].id, i);
      assert Busy(GetState(list, list[i].id));
    }
  }

  lemma {:induction false} Newborn(w: World, step: Step, a: nat)
    requires a !in w.listed && a in After(w, step).listed
    ensures step.Publish? && a == w.adapters.next && DevicesOf(After(w, step), a) == []
  {
    hide FreeDevices, Updated, FromId, AllDisconnected;
    if step.UnrefAdapter? || step.Close? { WithoutShrinks(w.listed, step.a); }
  }

  lemma {:induction false} WithoutShrinks(s: seq<nat>, x: nat)
    ensures forall y :: y in Without(s, x) ==> y in s
  {
    if s != [] { WithoutShrinks(s[1..], x); }
  }

  // ----- adapter ids -----

  /** The path of an adapter, and that only the first eight characters of a name tell adapters apart. */
  lemma {:induction false} NamesAreCut(a: string, b: string)
    ensures ObjectPath(None) == "/org/bluez/hci0" && ObjectPath(Some(a)) == "/org/bluez/" + a[..Min(|a|, 8)]
    ensures SameUpToCase(ObjectPath(Some(a)), ObjectPath(Some(b))) <==> SameUpToCase(a[..Min(|a|, 8)], b[..Min(|b|, 8)])
  {
    var c, d := a[..Min(|a|, 8)], b[..Min(|b|, 8)];
    var x, y := ObjectPath(Some(a)), ObjectPath(Some(b));
    assert x == "/org/bluez/" + c && y == "/org/bluez/" + d;
    hide ObjectPath;
    SameBehind("/org/bluez/", c, d);
  }

  lemma {:induction false} SameBehind(p: string, c: string, d: string)
    ensures SameUpToCase(p + c, p + d) <==> SameUpToCase(c, d)
  {
    hide TwoCases;
    var x, y := p + c, p + d;
    if SameUpToCase(x, y) {
      forall i | 0 <= i < |c| ensures c[i] == d[i] || TwoCases(c[i], d[i]) {
        assert x[|p| + i] == c[i] && y[|p| + i] == d[i];
      }
    }
  }

  /** No two listed adapters have the same id. */
  ghost predicate Unambiguous(w: World) {
    forall a, b :: a in w.listed && b in w.listed && a in w.info && b in w.info && a != b
                   ==> Fold(w.info[a].id) != Fold(w.info[b].id)
  }

  ghost predicate AlwaysUnambiguous(steps: seq<Step>) {
    Unambiguous(Run(START, steps)) && (steps == [] || AlwaysUnambiguous(steps[..|steps| - 1]))
  }

  /** No open publishes an adapter that was listed meanwhile. */
  predicate PublishedInTime(steps: seq<Step>) {
    steps == [] ||
    var init, step := steps[..|steps| - 1], steps[|steps| - 1];
    PublishedInTime(init) &&
    (step.Publish? ==> var w := Run(START, init); FromId(w.listed, w.info, ObjectPath(step.name)).None?)
  }

  /** Ids stay unique exactly if no two opens of one adapter overlap so that both publish. */
  lemma {:induction false} UnambiguousExactlyInTime(steps: seq<Step>)
    requires BalancedRun(steps)
    ensures AlwaysUnambiguous(steps) <==> PublishedInTime(steps)
  {
    if steps != [] {
      var init, step := steps[..|steps| - 1], steps[|steps| - 1];
      UnambiguousExactlyInTime(init);
      if AlwaysUnambiguous(init) {
        RunsAreExact(init);
        hide BalancedRun, After, Unambiguous, Fold, FromId, ObjectPath;
        StaysUnambiguous(Run(START, init), Books(init), step);
      }
    }
  }

  lemma {:induction false} StaysUnambiguous(w: World, l: Ledger, step: Step)
    requires Inv(w, l) && Unambiguous(w)
    ensures Unambiguous(After(w, step)) <==> (step.Publish? ==> FromId(w.listed, w.info, ObjectPath(step.name)).None?)
  {
    if step.Publish? { PublishKeepsIds(w, l, step.name); } else { IdsSurvive(w, step); }
    hide Fold, ObjectPath, After, Inv;
    if step.Publish? {
      var w', n := After(w, step), w.adapters.next;
      match FromId(w.listed, w.info, ObjectPath(step.name))
      case None =>
      case Some(a) => assert a in w'.listed && w'.info[a] == w.info[a];
    }
  }

  lemma {:induction false} PublishKeepsIds(w: World, l: Ledger, name: Option<string>)
    requires Inv(w, l)
    ensures var w', n := After(w, Publish(name)), w.adapters.next;
            && n !in w.listed && n in w'.info && w'.info[n].id == ObjectPath(name)
            && (forall a :: a in w'.listed <==> a in w.listed || a == n)
            && (forall a :: a in w.listed ==> a in w.info)
            && (forall a :: a != n ==> (a in w'.info <==> a in w.info) && (a in w.info ==> w'.info[a] == w.info[a]))
  {
    hide Fold, ObjectPath, Members, Lists, Single, FreeDevices, Updated, AllDisconnected, Find, FromId;
  }

  lemma {:induction false} IdsSurvive(w: World, step: Step)
    requires !step.Publish?
    ensures var w' := After(w, step);
            && (forall a :: a in w'.listed ==> a in w.listed)
            && (forall a :: a in w'.info ==> a in w.info && w'.info[a].id == w.info[a].id)
  {
    hide FreeDevices, Updated, FromId, AllDisconnected, Find, Removes, Creates;
    if step.UnrefAdapter? || step.Close? { WithoutShrinks(w.listed, step.a); }
  }

  /** Two overlapping opens of one adapter list it twice. */
  lemma {:induction false} DoubleOpen(name: Option<string>)
    ensures var steps := [Lookup(name), Lookup(name), Publish(name), Publish(name)];
            && BalancedRun(steps)
            && var w := Run(START, steps);
               w.listed == [0, 1] && 0 in w.info && 1 in w.info && w.info[0].id == w.info[1].id == ObjectPath(name)
  {
    hide ObjectPath, Fold, After, Booked, Balanced;
    Longer([], Lookup(name));
    assert [] + [Lookup(name)] == [Lookup(name)];
    assert Run(START, []) == START && Books([]) == NOTHING && BalancedRun([]);
    hide Run, Books, BalancedRun;
    var s1 := [Lookup(name)];
    var s2 := s1 + [Lookup(name)];
    var s3 := s2 + [Publish(name)];
    Longer(s1, Lookup(name));
    Longer(s2, Publish(name));
    Longer(s3, Publish(name));
    assert s3 + [Publish(name)] == [Lookup(name), Lookup(name), Publish(name), Publish(name)];
    LookupFails(NOTHING, name);
    LookupFails(Books(s1), name);
    PublishAdds(START, Books(s2), name);
    PublishAdds(Run(START, s3), Books(s3), name);
  }

  lemma {:induction false} LookupFails(l: Ledger, name: Option<string>)
    ensures Balanced(START, l, Lookup(name)) && After(START, Lookup(name)) == START
    ensures Booked(START, l, Lookup(name)) == l.(opening := l.opening + multiset{name})
  {
  }

  lemma {:induction false} PublishAdds(w: World, l: Ledger, name: Option<string>)
    ensures var a, w' := w.adapters.next, After(w, Publish(name));
            && w'.listed == w.listed + [a] && w'.info == w.info[a := Adapter(ObjectPath(name), [])]
               && w'.adapters.next == a + 1
            && (Balanced(w, l, Publish(name)) <==> name in l.opening)
            && Booked(w, l, Publish(name)).opening == l.opening - multiset{name}
  {
    hide ObjectPath;
  }
}
