/**
 Discovery of primary services, all of them or those with a given UUID
 (gatt.c; sections 4.4.1 and 4.4.2 of Bluetooth Core Specification Vol 3
 Part G), against any server that answers as the protocol demands.
 */
module PrimaryDiscovery {
  import opened Octets
  import opened AttPdu
  import opened Scheduler

  const PRIMARY_SERVICE := Uuid16(0x2800)
  const ATT_ECODE_ATTR_NOT_FOUND: byte := 0x0A

  /** A service as the server holds it. */
  datatype Service = Service(start: u16, end: u16, uuid: Uuid)

  /** struct gatt_primary; the UUID is always reported in its 128-bit form. */
  datatype Primary = Primary(range: Range, uuid: Octets16)

  /** A procedure sends its next request, calls its user, divides by zero, or reads behind an element it was sent. */
  datatype Progress<T> =
    | Asking(found: seq<T>, request: seq<byte>)
    | Told(found: seq<T>, err: byte)
    | Crashed(found: seq<T>)
    | Overread(found: seq<T>)

  /** A call of the result function: the status and the PDU, if any, that the transport gives it. */
  datatype Call = Call(status: byte, rx: seq<byte>)

  /** The transport was sent rx in reply to a request that expects op. */
  predicate Delivered(op: byte, call: Call) {
    call.status == StatusOf(op, call.rx)
  }

  /** att_get_u16 from a copied element. */
  function WordAt(b: seq<byte>, i: nat): u16 {
    GetU16(Window(b, i, 2))
  }

  // ----- the client -----

  function ErrorOf(status: byte): byte {
    if status == ATT_ECODE_ATTR_NOT_FOUND then 0 else status
  }

  function GroupRequest(start: u16, mtu: nat): seq<byte> {
    EncRangeReq(0x10, start, 0xFFFF, PRIMARY_SERVICE, mtu)
  }

  /** One element of a group response; elements that are neither 6 nor 20 octets long are skipped. */
  function PrimaryOf(e: seq<byte>): seq<Primary> {
    var range := Range(WordAt(e, 0), WordAt(e, 2));
    if |e| == 6 then [Primary(range, Widen(WordAt(e, 4)))]
    else if |e| == 20 then [Primary(range, Window(e, 4, 16))]
    else []
  }

  function PrimariesOf(list: seq<seq<byte>>): seq<Primary> {
    if list == [] then [] else PrimariesOf(list[..|list| - 1]) + PrimaryOf(list[|list| - 1])
  }

  function LastEnd(list: seq<seq<byte>>): u16 {
    if list == [] then 0 else WordAt(list[|list| - 1], 2)
  }

  /** Every element is read up to its fourth octet. */
  predicate LongEnough(list: seq<seq<byte>>) {
    list == [] || |list[0]| >= 4
  }

  /** primary_all_cb. */
  function AllCallback(found: seq<Primary>, status: byte, rx: seq<byte>, mtu: nat): Progress<Primary> {
    if status != 0 then Told(found, ErrorOf(status))
    else
      match DecListResp(0x11, rx)
      case DivisionByZero => Crashed(found)
      case OtherOpcode => Told(found, ATT_ECODE_IO)
      case Elements(list) =>
        if !LongEnough(list) then Overread(found) else
        var found' := found + PrimariesOf(list);
        if LastEnd(list) != 0xFFFF then Asking(found', GroupRequest(LastEnd(list) + 1, mtu)) else Told(found', 0)
  }

  function UuidRequest(start: u16, uuid: Uuid, mtu: nat): seq<byte> {
    EncFindByTypeReq(start, 0xFFFF, PRIMARY_SERVICE, UuidOctets(uuid), mtu)
  }

  /** primary_by_uuid_cb. */
  function ByUuidCallback(found: seq<Range>, status: byte, rx: seq<byte>, uuid: Uuid, mtu: nat): Progress<Range> {
    if status != 0 then Told(found, ErrorOf(status))
    else
      var ranges := DecRanges(rx);
      if ranges == [] then Told(found, 0)
      else
        var end := ranges[|ranges| - 1].end;
        if end == 0xFFFF then Told(found + ranges, 0)
        else
          var request := UuidRequest(end + 1, uuid, mtu);
          if request == [] then Told(found + ranges, 0) else Asking(found + ranges, request)
  }

  // ----- the server -----

  /** Services in ascending order, with disjoint ranges. */
  ghost predicate Services(db: seq<Service>) {
    && (forall i :: 0 <= i < |db| ==> 1 <= db[i].start <= db[i].end && !db[i].uuid.Uuid32?)
    && (forall i, j :: 0 <= i < j < |db| ==> db[i].end < db[j].start)
  }

  /** The services that start at or after a handle, in order. */
  function From(db: seq<Service>, start: nat): seq<Service> {
    if db == [] then [] else (if db[0].start >= start then [db[0]] else []) + From(db[1..], start)
  }

  function Matching(db: seq<Service>, value: seq<byte>): seq<Service> {
    if db == [] then [] else (if UuidOctets(db[0].uuid) == value then [db[0]] else []) + Matching(db[1..], value)
  }

  function ServiceOctets(v: Service): seq<byte> {
    PutU16(v.start) + PutU16(v.end) + UuidOctets(v.uuid)
  }

  function ServicesOctets(db: seq<Service>): (list: seq<seq<byte>>)
    ensures |list| == |db| && forall i :: 0 <= i < |db| ==> list[i] == ServiceOctets(db[i])
  {
    seq(|db|, i requires 0 <= i < |db| => ServiceOctets(db[i]))
  }

  function RangesOf(db: seq<Service>): (ranges: seq<Range>)
    ensures |ranges| == |db| && forall i :: 0 <= i < |db| ==> ranges[i] == Range(db[i].start, db[i].end)
  {
    seq(|db|, i requires 0 <= i < |db| => Range(db[i].start, db[i].end))
  }

  /**
   A legal response to a group request: the error if no service is left, or any
   non-empty run of the next services whose UUIDs have one width, possibly cut
   in the middle of a further element.
   */
  ghost predicate GroupAnswer(db: seq<Service>, request: seq<byte>, rx: seq<byte>, mtu: nat) {
    exists start: u16 :: DecRangeReq(0x10, request) == Some((start, 0xFFFF, PRIMARY_SERVICE)) &&
      var left := From(db, start);
      if left == [] then rx == EncError(0x10, start, ATT_ECODE_ATTR_NOT_FOUND, mtu)
      else exists n: nat, elen: nat, cut: seq<byte> ::
             GroupRun(left, n, elen, cut) && rx == GroupPdu(left, n, elen, cut)
  }

  ghost predicate GroupRun(left: seq<Service>, n: nat, elen: nat, cut: seq<byte>) {
    1 <= n <= |left| && (elen == 6 || elen == 20) && |cut| < elen && Uniform(ServicesOctets(left[..n]), elen)
  }

  function GroupPdu(left: seq<Service>, n: nat, elen: nat, cut: seq<byte>): seq<byte>
    requires n <= |left| && elen < 0x100
  {
    [0x11, elen] + (Flat(ServicesOctets(left[..n])) + cut)
  }

  /** A legal response to a find-by-type-value request for primary services. */
  ghost predicate RangesAnswer(db: seq<Service>, request: seq<byte>, rx: seq<byte>, mtu: nat) {
    exists start: u16, value: seq<byte> :: DecFindByTypeReq(request) == Some((start, 0xFFFF, PRIMARY_SERVICE, value)) &&
      var left := From(Matching(db, value), start);
      if left == [] then rx == EncError(0x06, start, ATT_ECODE_ATTR_NOT_FOUND, mtu)
      else exists n: nat, cut: seq<byte> :: 1 <= n <= |left| && |cut| < 4 && rx == RangesPdu(left, n, cut)
  }

  function RangesPdu(left: seq<Service>, n: nat, cut: seq<byte>): seq<byte>
    requires n <= |left|
  {
    [0x07] + Flat(AsOctets(RangesOf(left[..n]))) + cut
  }

  // ----- what a client must find -----

  function Reported(v: Service): Primary
    requires !v.uuid.Uuid32?
  {
    Primary(Range(v.start, v.end), Uuid128Of(v.uuid))
  }

  /** The 128-bit form of a UUID: 0000xxxx-0000-1000-8000-00805F9B34FB for a 16-bit one. */
  function Uuid128Of(uuid: Uuid): Octets16
    requires !uuid.Uuid32?
  {
    match uuid
    case Uuid16(word) =>
      [0xFB, 0x34, 0x9B, 0x5F, 0x80, 0x00, 0x00, 0x80, 0x00, 0x10, 0x00, 0x00, word % 0x100, word / 0x100, 0x00, 0x00]
    case Uuid128(octets) => octets
  }

  function AllReported(db: seq<Service>): (found: seq<Primary>)
    requires forall i :: 0 <= i < |db| ==> !db[i].uuid.Uuid32?
    ensures |found| == |db| && forall i :: 0 <= i < |db| ==> found[i] == Reported(db[i])
  {
    seq(|db|, i requires 0 <= i < |db| => Reported(db[i]))
  }

  // ----- reading a response -----

  lemma {:induction false} SplitWithCut(list: seq<seq<byte>>, elen: nat, cut: seq<byte>)
    requires Uniform(list, elen) && |cut| < elen
    ensures Split(Flat(list) + cut, elen) == list
  {
    if list == [] {
      assert Flat(list) + cut == cut;
    } else {
      SplitWithCut(list[1..], elen, cut);
      assert (Flat(list) + cut)[..elen] == list[0] && (Flat(list) + cut)[elen..] == Flat(list[1..]) + cut;
    }
  }

  lemma {:induction false} WidenIs(word: u16)
    ensures Widen(word) == Uuid128Of(Uuid16(word))
  {
  }

  lemma {:induction false} PrimaryOfService(v: Service)
    requires !v.uuid.Uuid32?
    ensures PrimaryOf(ServiceOctets(v)) == [Reported(v)] && WordAt(ServiceOctets(v), 2) == v.end
  {
    var e, u := ServiceOctets(v), UuidOctets(v.uuid);
    assert e[0..2] == PutU16(v.start) && e[2..4] == PutU16(v.end) && e[4..4 + |u|] == u;
    hide Widen;
    if v.uuid.Uuid16? { WidenIs(v.uuid.word); }
  }

  lemma {:induction false} PrimariesAppend(list: seq<seq<byte>>, e: seq<byte>)
    ensures PrimariesOf(list + [e]) == PrimariesOf(list) + PrimaryOf(e) && LastEnd(list + [e]) == WordAt(e, 2)
  {
    hide PrimaryOf, WordAt;
    assert (list + [e])[..|list|] == list;
  }

  lemma {:induction false} ReportedAppend(db: seq<Service>, v: Service)
    requires (forall i :: 0 <= i < |db| ==> !db[i].uuid.Uuid32?) && !v.uuid.Uuid32?
    ensures AllReported(db + [v]) == AllReported(db) + [Reported(v)]
    ensures ServicesOctets(db + [v]) == ServicesOctets(db) + [ServiceOctets(v)]
  {
    hide Reported, ServiceOctets;
  }

  lemma {:induction false} PrimariesOfServices(db: seq<Service>)
    requires forall i :: 0 <= i < |db| ==> !db[i].uuid.Uuid32?
    ensures PrimariesOf(ServicesOctets(db)) == AllReported(db)
    ensures db != [] ==> LastEnd(ServicesOctets(db)) == db[|db| - 1].end
  {
    if db == [] {
      NoPrimaries(db);
    } else {
      var init, last := db[..|db| - 1], db[|db| - 1];
      PrimariesOfServices(init);
      PrimaryOfService(last);
      ReportedAppend(init, last);
      PrimariesAppend(ServicesOctets(init), ServiceOctets(last));
      assert db == init + [last];
    }
    hide PrimaryOf, ServiceOctets, Reported, WordAt, PrimariesOf, LastEnd, AllReported, ServicesOctets;
  }

  lemma {:induction false} OneMore(was: seq<Primary>, list: seq<seq<byte>>, i: nat)
    requires i < |list|
    ensures PrimariesOf(list[..i + 1]) == PrimariesOf(list[..i]) + PrimaryOf(list[i])
            && LastEnd(list[..i + 1]) == WordAt(list[i], 2)
    ensures was + PrimariesOf(list[..i]) + PrimaryOf(list[i]) == was + PrimariesOf(list[..i + 1])
  {
    hide PrimaryOf, PrimariesOf, LastEnd, WordAt;
    PrefixOne(list, i);
    PrimariesAppend(list[..i], list[i]);
    Associate(was, PrimariesOf(list[..i]), PrimaryOf(list[i]));
  }

  lemma {:induction false} PrefixOne(list: seq<seq<byte>>, i: nat)
    requires i < |list|
    ensures list[..i + 1] == list[..i] + [list[i]]
  {
  }

  lemma {:induction false} Associate(a: seq<Primary>, b: seq<Primary>, c: seq<Primary>)
    ensures a + b + c == a + (b + c)
  {
  }

  lemma {:induction false} NoPrimariesYet(list: seq<seq<byte>>)
    ensures PrimariesOf(list[..0]) == [] && LastEnd(list[..0]) == 0
  {
  }

  lemma {:induction false} NoPrimaries(db: seq<Service>)
    requires db == []
    ensures PrimariesOf(ServicesOctets(db)) == [] == AllReported(db)
  {
  }

  /** The first handle not covered by the first k services. */
  function NextHandle(db: seq<Service>, k: nat): nat
    requires k <= |db|
  {
    if k == 0 then 1 else db[k - 1].end + 1
  }

  lemma {:induction false} FromNext(db: seq<Service>, k: nat, start: nat)
    requires k <= |db|
    requires (forall i :: 0 <= i < k ==> db[i].start < start) && (forall i :: k <= i < |db| ==> start <= db[i].start)
    ensures From(db, start) == db[k..]
  {
    if db != [] {
      if k == 0 {
        FromNext(db[1..], 0, start);
      } else {
        FromNext(db[1..], k - 1, start);
        assert db[1..][k - 1..] == db[k..];
      }
    }
  }

  lemma {:induction false} FromNextHandle(db: seq<Service>, k: nat)
    requires Services(db) && k <= |db|
    ensures From(db, NextHandle(db, k)) == db[k..]
  {
    FromNext(db, k, NextHandle(db, k));
  }

  // ----- all services -----

  /** The procedure has found the first k services and asks for the rest. */
  ghost predicate AsksFor(db: seq<Service>, p: Progress<Primary>, k: nat, mtu: nat)
    requires Services(db)
  {
    && p.Asking? && k <= |db| && NextHandle(db, k) <= 0xFFFF
    && p.found == AllReported(db[..k]) && p.request == GroupRequest(NextHandle(db, k), mtu)
  }

  /** One reply: the procedure finishes with everything, or has found more. */
  lemma {:induction false} GroupRound(db: seq<Service>, p: Progress<Primary>, k: nat, rx: seq<byte>, mtu: nat)
    returns (n: nat)
    requires Services(db) && AsksFor(db, p, k, mtu) && mtu >= 23 && GroupAnswer(db, p.request, rx, mtu)
    ensures var q := AllCallback(p.found, StatusOf(0x11, rx), rx, mtu);
            if q.Told? then q == Told(AllReported(db), 0) else n > 0 && AsksFor(db, q, k + n, mtu)
  {
    var elen, cut;
    n, elen, cut := GroupAnswerFor(db, k, rx, mtu);
    hide GroupAnswer, Services, From, GroupRequest, AllCallback;
    if k == |db| {
      NothingLeft(db, p, k, rx, mtu);
    } else {
      GroupPduRead(db[k..], n, elen, cut, rx);
      MoreFound(db, p, k, n, elen, rx, mtu);
    }
  }

  /** A legal response to the request for the services from k on. */
  lemma {:induction false} GroupAnswerFor(db: seq<Service>, k: nat, rx: seq<byte>, mtu: nat)
    returns (n: nat, elen: nat, cut: seq<byte>)
    requires Services(db) && k <= |db| && NextHandle(db, k) <= 0xFFFF && mtu >= 23
    requires GroupAnswer(db, GroupRequest(NextHandle(db, k), mtu), rx, mtu)
    ensures if k == |db| then rx == EncError(0x10, NextHandle(db, k), ATT_ECODE_ATTR_NOT_FOUND, mtu)
            else GroupRun(db[k..], n, elen, cut) && rx == GroupPdu(db[k..], n, elen, cut)
    ensures forall i :: 0 <= i < |db[k..]| ==> !db[k..][i].uuid.Uuid32?
  {
    RangeReqRoundTrip(0x10, NextHandle(db, k), 0xFFFF, PRIMARY_SERVICE, mtu);
    FromNextHandle(db, k);
    hide From, GroupRun, GroupPdu, EncError, EncRangeReq, DecRangeReq;
    n, elen, cut := 0, 0, [];
    if k < |db| {
      assert db[k..] != [];
      n, elen, cut :| GroupRun(db[k..], n, elen, cut) && rx == GroupPdu(db[k..], n, elen, cut);
    }
  }

  lemma {:induction false} NothingLeft(db: seq<Service>, p: Progress<Primary>, k: nat, rx: seq<byte>, mtu: nat)
    requires Services(db) && AsksFor(db, p, k, mtu) && mtu >= 23 && k == |db|
    requires rx == EncError(0x10, NextHandle(db, k), ATT_ECODE_ATTR_NOT_FOUND, mtu)
    ensures StatusOf(0x11, rx) == ATT_ECODE_ATTR_NOT_FOUND
    ensures AllCallback(p.found, ATT_ECODE_ATTR_NOT_FOUND, rx, mtu) == Told(AllReported(db), 0)
  {
    assert db[..k] == db;
  }

  lemma {:induction false} MoreFound(db: seq<Service>, p: Progress<Primary>, k: nat, n: nat, elen: nat, rx: seq<byte>,
        mtu: nat)
    requires Services(db) && AsksFor(db, p, k, mtu) && 1 <= n <= |db| - k
    requires DecListResp(0x11, rx) == Elements(ServicesOctets(db[k..][..n]))
    requires PrimariesOf(ServicesOctets(db[k..][..n])) == AllReported(db[k..][..n])
    requires LastEnd(ServicesOctets(db[k..][..n])) == db[k..][n - 1].end
    ensures var q := AllCallback(p.found, 0, rx, mtu);
            if q.Told? then q == Told(AllReported(db), 0) else AsksFor(db, q, k + n, mtu)
  {
    hide DecListResp, PrimariesOf, LastEnd, GroupRequest, AllReported, ServicesOctets, AllCallback;
    var list := ServicesOctets(db[k..][..n]);
    ReportedConcat(db, k, n);
    LastService(db, k, n);
    CallbackOnList(p.found, rx, list, AllReported(db[k..][..n]), db[k + n - 1].end, mtu);
  }

  lemma {:induction false} CallbackOnList(
      found: seq<Primary>, rx: seq<byte>, list: seq<seq<byte>>, more: seq<Primary>, end: u16, mtu: nat)
    requires DecListResp(0x11, rx) == Elements(list) && LongEnough(list)
    requires PrimariesOf(list) == more && LastEnd(list) == end
    ensures AllCallback(found, 0, rx, mtu) ==
            if end != 0xFFFF then Asking(found + more, GroupRequest(end + 1, mtu)) else Told(found + more, 0)
  {
    hide DecListResp, PrimariesOf, LastEnd, GroupRequest;
  }

  lemma {:induction false} ReportedConcat(db: seq<Service>, k: nat, n: nat)
    requires k + n <= |db| && forall i :: 0 <= i < |db| ==> !db[i].uuid.Uuid32?
    ensures AllReported(db[..k]) + AllReported(db[k..][..n]) == AllReported(db[..k + n])
  {
    hide Reported;
  }

  lemma {:induction false} LastService(db: seq<Service>, k: nat, n: nat)
    requires Services(db) && 1 <= n <= |db| - k
    ensures db[k..][n - 1].end == db[k + n - 1].end
    ensures db[k + n - 1].end == 0xFFFF ==> db[..k + n] == db
  {
    if k + n < |db| { assert db[k + n - 1].end < db[k + n].start; }
  }

  lemma {:induction false} GroupPduRead(left: seq<Service>, n: nat, elen: nat, cut: seq<byte>, rx: seq<byte>)
    requires GroupRun(left, n, elen, cut) && rx == GroupPdu(left, n, elen, cut)
    requires forall i :: 0 <= i < |left| ==> !left[i].uuid.Uuid32?
    ensures StatusOf(0x11, rx) == 0 && DecListResp(0x11, rx) == Elements(ServicesOctets(left[..n]))
    ensures PrimariesOf(ServicesOctets(left[..n])) == AllReported(left[..n])
    ensures LastEnd(ServicesOctets(left[..n])) == left[n - 1].end
  {
    hide Flat, Split, ServicesOctets, PrimariesOf, LastEnd, AllReported, Uniform;
    var list := ServicesOctets(left[..n]);
    SplitWithCut(list, elen, cut);
    PrimariesOfServices(left[..n]);
    TaggedPayload(elen, Flat(list) + cut, rx);
  }

  lemma {:induction false} TaggedPayload(elen: byte, payload: seq<byte>, rx: seq<byte>)
    requires rx == [0x11, elen] + payload
    ensures rx[0] == 0x11 && rx[1] == elen && rx[2..] == payload && StatusOf(0x11, rx) == 0
  {
  }

  /** What the callback makes of a reply. */
  function AllStep(p: Progress<Primary>, call: Call, mtu: nat): Progress<Primary> {
    if p.Asking? then AllCallback(p.found, call.status, call.rx, mtu) else p
  }

  function AllRun(p: Progress<Primary>, calls: seq<Call>, mtu: nat): Progress<Primary>
    decreases calls
  {
    if calls == [] then p else AllRun(AllStep(p, calls[0], mtu), calls[1..], mtu)
  }

  /** Every request is answered by a legal response. */
  ghost predicate AllAnswered(db: seq<Service>, p: Progress<Primary>, calls: seq<Call>, mtu: nat)
    decreases calls
  {
    calls == [] ||
    (p.Asking? && Delivered(0x11, calls[0]) && GroupAnswer(db, p.request, calls[0].rx, mtu)
        && AllAnswered(db, AllStep(p, calls[0], mtu), calls[1..], mtu))
  }

  lemma {:induction false} AllFromHere(db: seq<Service>, p: Progress<Primary>, k: nat, calls: seq<Call>,
        mtu: nat)
    requires Services(db) && AsksFor(db, p, k, mtu) && mtu >= 23 && AllAnswered(db, p, calls, mtu)
    ensures |calls| <= |db| - k + 1
    ensures var q := AllRun(p, calls, mtu); q.Asking? || q == Told(AllReported(db), 0)
    ensures |calls| == |db| - k + 1 ==> AllRun(p, calls, mtu).Told?
    decreases calls
  {
    hide AllCallback, GroupAnswer, StatusOf, Services, AllReported, GroupRequest, AllStep, AsksFor;
    if calls != [] {
      AllAnsweredHead(db, p, calls, mtu);
      var n := AllStepRound(db, p, k, calls[0], mtu);
      var q := AllStep(p, calls[0], mtu);
      if q.Told? {
        assert calls[1..] == [];
      } else {
        AllFromHere(db, q, k + n, calls[1..], mtu);
      }
    }
    AsksForBound(db, p, k, mtu);
  }

  lemma {:induction false} AsksForBound(db: seq<Service>, p: Progress<Primary>, k: nat, mtu: nat)
    requires Services(db) && AsksFor(db, p, k, mtu)
    ensures p.Asking? && k <= |db|
  {
  }

  lemma {:induction false} AllAnsweredHead(db: seq<Service>, p: Progress<Primary>, calls: seq<Call>, mtu: nat)
    requires AllAnswered(db, p, calls, mtu) && calls != []
    ensures p.Asking? && Delivered(0x11, calls[0]) && GroupAnswer(db, p.request, calls[0].rx, mtu)
            && AllAnswered(db, AllStep(p, calls[0], mtu), calls[1..], mtu)
  {
    hide GroupAnswer, AllStep;
  }

  lemma {:induction false} AllStepRound(db: seq<Service>, p: Progress<Primary>, k: nat, call: Call, mtu: nat)
      returns (n: nat)
    requires Services(db) && AsksFor(db, p, k, mtu) && mtu >= 23 && Delivered(0x11, call)
    requires GroupAnswer(db, p.request, call.rx, mtu)
    ensures var q := AllStep(p, call, mtu);
            if q.Told? then q == Told(AllReported(db), 0) else n > 0 && AsksFor(db, q, k + n, mtu)
  {
    hide AllCallback, GroupAnswer, StatusOf, Services, AllReported, AsksFor;
    AsksForBound(db, p, k, mtu);
    n := GroupRound(db, p, k, call.rx, mtu);
  }

  /**
   gatt_discover_primary without UUID: however the server splits its list, the
   user is given exactly the list, and after at most one more round trip than
   there are services.
   */
  lemma {:induction false} AllServicesAreFound(db: seq<Service>, calls: seq<Call>, mtu: nat)
    requires Services(db) && mtu >= 23
    requires AllAnswered(db, Asking([], GroupRequest(1, mtu)), calls, mtu)
    ensures var q := AllRun(Asking([], GroupRequest(1, mtu)), calls, mtu);
            && |calls| <= |db| + 1 && (|calls| == |db| + 1 ==> q.Told?)
            && (q.Asking? || q == Told(AllReported(db), 0))
  {
    assert AsksFor(db, Asking([], GroupRequest(1, mtu)), 0, mtu);
    AllFromHere(db, Asking([], GroupRequest(1, mtu)), 0, calls, mtu);
  }

  /** A response with at least one element of fewer than four octets. */
  predicate ShortElements(rx: seq<byte>) {
    At(rx, 0) == 0x11 && 1 <= At(rx, 1) <= 3 && |rx| >= 2 + At(rx, 1)
  }

  lemma {:induction false} AllStepFails(p: Progress<Primary>, call: Call, mtu: nat)
    requires p.Asking?
    ensures AllStep(p, call, mtu).Crashed? <==> call.status == 0 && ZeroLength(0x11, call.rx)
    ensures AllStep(p, call, mtu).Overread? <==> call.status == 0 && ShortElements(call.rx)
  {
    hide PrimariesOf, LastEnd, GroupRequest;
  }

  lemma {:induction false} AllRunStep(p: Progress<Primary>, calls: seq<Call>, mtu: nat)
    requires calls != []
    ensures AllRun(p, calls, mtu) == AllRun(AllStep(p, calls[0], mtu), calls[1..], mtu)
  {
    hide AllStep;
  }

  lemma {:induction false} AllRunNothing(p: Progress<Primary>, calls: seq<Call>, mtu: nat)
    requires calls == []
    ensures AllRun(p, calls, mtu) == p
  {
  }

  /** A procedure that has ended did so at the reply at `n`, before which it was waiting and after which it is not. */
  lemma {:induction false} AllEndsAt(p: Progress<Primary>, calls: seq<Call>, mtu: nat) returns (n: nat)
    requires p.Asking?
    ensures n <= |calls| && forall k: nat :: k <= |calls| ==> (AllRun(p, calls[..k], mtu).Asking? <==> k <= n)
    ensures AllRun(p, calls, mtu).Asking? <==> n == |calls|
    ensures n < |calls| ==> AllRun(p, calls, mtu) == AllStep(AllRun(p, calls[..n], mtu), calls[n], mtu)
    ensures forall k: nat :: k < n ==> AllStep(AllRun(p, calls[..k], mtu), calls[k], mtu).Asking?
    decreases calls
  {
    hide AllStep, AllRun;
    AllRunNothing(p, calls[..0], mtu);
    if calls == [] {
      n := 0;
      AllRunNothing(p, calls, mtu);
    } else {
      var q, rest := AllStep(p, calls[0], mtu), calls[1..];
      AllRunStep(p, calls, mtu);
      forall k: nat | k < |calls|
        ensures AllRun(p, calls[..k + 1], mtu) == AllRun(q, rest[..k], mtu)
                && (k < |rest| ==> calls[k + 1] == rest[k])
      {
        AllRunStep(p, calls[..k + 1], mtu);
        assert calls[..k + 1][1..] == rest[..k];
      }
      if q.Asking? {
        var m := AllEndsAt(q, rest, mtu);
        n := m + 1;
        forall k: nat | k <= |calls| ensures AllRun(p, calls[..k], mtu).Asking? <==> k <= n {
          if k > 0 {
            var j := k - 1;
            assert AllRun(p, calls[..j + 1], mtu) == AllRun(q, rest[..j], mtu);
          }
        }
        forall k: nat | k < n ensures AllStep(AllRun(p, calls[..k], mtu), calls[k], mtu).Asking? {
          if k > 0 {
            var j := k - 1;
            assert AllRun(p, calls[..j + 1], mtu) == AllRun(q, rest[..j], mtu);
          }
        }
      } else {
        n := 0;
        forall k: nat | k <= |rest| ensures AllRun(q, rest[..k], mtu) == q { AllStaysDone(q, rest[..k], mtu); }
        AllStaysDone(q, rest, mtu);
        forall k: nat | k <= |calls| ensures AllRun(p, calls[..k], mtu).Asking? <==> k <= n {
          if k > 0 {
            var j := k - 1;
            assert AllRun(p, calls[..j + 1], mtu) == AllRun(q, rest[..j], mtu);
          }
        }
      }
    }
  }

  /**
   Against any peer at all: a successful reply ends in a division by zero if and
   only if its element length reads 0, and in a read behind an allocation if and
   only if it has an element of fewer than four octets, and the procedure is
   waiting for it.
   */
  lemma {:induction false} AllFailsExactly(p: Progress<Primary>, calls: seq<Call>, mtu: nat)
    requires p.Asking?
    ensures AllRun(p, calls, mtu).Crashed? <==>
            exists i :: 0 <= i < |calls| && AllRun(p, calls[..i], mtu).Asking?
                        && calls[i].status == 0 && ZeroLength(0x11, calls[i].rx)
    ensures AllRun(p, calls, mtu).Overread? <==>
            exists i :: 0 <= i < |calls| && AllRun(p, calls[..i], mtu).Asking?
                        && calls[i].status == 0 && ShortElements(calls[i].rx)
  {
    hide AllStep, AllRun, ZeroLength, ShortElements;
    var n := AllEndsAt(p, calls, mtu);
    forall i: nat | i < |calls| && AllRun(p, calls[..i], mtu).Asking?
      ensures var q := AllStep(AllRun(p, calls[..i], mtu), calls[i], mtu);
              && (q.Crashed? <==> calls[i].status == 0 && ZeroLength(0x11, calls[i].rx))
              && (q.Overread? <==> calls[i].status == 0 && ShortElements(calls[i].rx))
    {
      AllStepFails(AllRun(p, calls[..i], mtu), calls[i], mtu);
    }
    if n < |calls| { assert AllRun(p, calls[..n], mtu).Asking?; }
  }

  /**
   Against any peer and any failure of the transport: a waiting procedure that
   is given an error tells its user exactly what it has found, with no error if
   the error was 0x0A, and with that error otherwise; a PDU of another kind is
   told as 0x80.
   */
  lemma {:induction false} AllTellsErrors(p: Progress<Primary>, calls: seq<Call>, mtu: nat, i: nat)
    requires p.Asking? && i < |calls| && AllRun(p, calls[..i], mtu).Asking?
    ensures var found, status := AllRun(p, calls[..i], mtu).found, calls[i].status;
            && (status != 0 ==> AllRun(p, calls, mtu) == Told(found, if status == 0x0A then 0 else status))
            && (status == 0 && At(calls[i].rx, 0) != 0x11 ==> AllRun(p, calls, mtu) == Told(found, 0x80))
  {
    var n := AllEndsAt(p, calls, mtu);
    AllStepTells(AllRun(p, calls[..i], mtu), calls[i], mtu);
    hide AllStep, AllRun;
  }

  lemma {:induction false} AllStepTells(p: Progress<Primary>, call: Call, mtu: nat)
    requires p.Asking?
    ensures call.status != 0 ==> AllStep(p, call, mtu) == Told(p.found, if call.status == 0x0A then 0 else call.status)
    ensures call.status == 0 && At(call.rx, 0) != 0x11 ==> AllStep(p, call, mtu) == Told(p.found, 0x80)
  {
    hide Split, PrimariesOf, LastEnd, GroupRequest;
  }

  lemma {:induction false} AllStaysDone(q: Progress<Primary>, calls: seq<Call>, mtu: nat)
    requires !q.Asking?
    ensures AllRun(q, calls, mtu) == q
    decreases calls
  {
    if calls != [] { AllStaysDone(q, calls[1..], mtu); }
  }

  // ----- services with a given UUID -----

  lemma {:induction false} MatchingMembers(db: seq<Service>, value: seq<byte>, i: nat)
    requires i < |Matching(db, value)|
    ensures Matching(db, value)[i] in db
  {
    var rest := Matching(db[1..], value);
    if UuidOctets(db[0].uuid) == value {
      if i > 0 { MatchingMembers(db[1..], value, i - 1); }
    } else {
      MatchingMembers(db[1..], value, i);
    }
  }

  lemma {:induction false} MatchingIsOrdered(db: seq<Service>, value: seq<byte>)
    requires Services(db)
    ensures Services(Matching(db, value))
  {
    if db != [] {
      ServicesTail(db);
      hide Services;
      MatchingIsOrdered(db[1..], value);
      var rest := Matching(db[1..], value);
      forall i | 0 <= i < |rest| ensures db[0].end < rest[i].start {
        MatchingMembers(db[1..], value, i);
      }
      ServicesPrepend(db[0], rest);
    }
  }

  lemma {:induction false} ServicesTail(db: seq<Service>)
    requires Services(db) && db != []
    ensures Services(db[1..]) && forall v :: v in db[1..] ==> db[0].end < v.start
    ensures 1 <= db[0].start <= db[0].end && !db[0].uuid.Uuid32?
  {
  }

  lemma {:induction false} ServicesPrepend(v: Service, rest: seq<Service>)
    requires Services(rest) && 1 <= v.start <= v.end && !v.uuid.Uuid32? && forall i :: 0 <= i < |rest| ==>
             v.end < rest[i].start
    ensures Services([v] + rest) && [] + rest == rest
  {
  }

  /** The procedure has found the first k matching ranges and asks for the rest. */
  ghost predicate AsksForRanges(db: seq<Service>, p: Progress<Range>, k: nat, uuid: Uuid, mtu: nat) {
    && p.Asking? && k <= |db| && NextHandle(db, k) <= 0xFFFF
    && p.found == RangesOf(db[..k]) && p.request == UuidRequest(NextHandle(db, k), uuid, mtu)
  }

  lemma {:induction false} RangesAnswerFor(db: seq<Service>, k: nat, uuid: Uuid, rx: seq<byte>, mtu: nat)
    returns (n: nat, cut: seq<byte>)
    requires Services(db) && mtu >= 23
    requires k <= |Matching(db, UuidOctets(uuid))| && NextHandle(Matching(db, UuidOctets(uuid)), k) <= 0xFFFF
    requires RangesAnswer(db, UuidRequest(NextHandle(Matching(db, UuidOctets(uuid)), k), uuid, mtu), rx, mtu)
    ensures var m := Matching(db, UuidOctets(uuid));
            if k == |m| then rx == EncError(0x06, NextHandle(m, k), ATT_ECODE_ATTR_NOT_FOUND, mtu)
            else 1 <= n <= |m| - k && |cut| < 4 && rx == RangesPdu(m[k..], n, cut)
  {
    var value := UuidOctets(uuid);
    var m := Matching(db, value);
    FindByTypeReqRoundTrip(NextHandle(m, k), 0xFFFF, PRIMARY_SERVICE, value, mtu);
    assert value[..|value|] == value;
    MatchingIsOrdered(db, value);
    FromNextHandle(m, k);
    hide From, RangesPdu, EncError, EncFindByTypeReq, DecFindByTypeReq, Services, Matching;
    n, cut := 0, [];
    if k < |m| {
      assert m[k..] != [];
      n, cut :| 1 <= n <= |m[k..]| && |cut| < 4 && rx == RangesPdu(m[k..], n, cut);
    }
  }

  lemma {:induction false} RangesPduRead(left: seq<Service>, n: nat, cut: seq<byte>, rx: seq<byte>)
    requires 1 <= n <= |left| && |cut| < 4 && rx == RangesPdu(left, n, cut)
    ensures StatusOf(0x07, rx) == 0 && DecRanges(rx) == RangesOf(left[..n])
  {
    var ranges := RangesOf(left[..n]);
    var list := AsOctets(ranges);
    SplitWithCut(list, 4, cut);
    RangesOfOctets(ranges);
    FlatLength(list, 4);
    hide Flat, Split, AsOctets, AsRanges, RangesOf;
    assert rx[1..] == Flat(list) + cut;
  }

  lemma {:induction false} RangesFound(m: seq<Service>, p: Progress<Range>, k: nat, n: nat, uuid: Uuid, rx: seq<byte>,
        mtu: nat)
    requires Services(m) && AsksForRanges(m, p, k, uuid, mtu) && 1 <= n <= |m| - k && mtu >= 23
    requires DecRanges(rx) == RangesOf(m[k..][..n])
    ensures var q := ByUuidCallback(p.found, 0, rx, uuid, mtu);
            if q.Told? then q == Told(RangesOf(m), 0) else AsksForRanges(m, q, k + n, uuid, mtu)
  {
    hide DecRanges, Services, ByUuidCallback, UuidRequest, RangesOf;
    LastService(m, k, n);
    RangesConcat(m, k, n);
    CallbackOnRanges(p.found, rx, RangesOf(m[k..][..n]), uuid, mtu);
  }

  lemma {:induction false} RangesConcat(m: seq<Service>, k: nat, n: nat)
    requires k + n <= |m| && n > 0
    ensures RangesOf(m[..k]) + RangesOf(m[k..][..n]) == RangesOf(m[..k + n])
    ensures RangesOf(m[k..][..n])[n - 1].end == m[k + n - 1].end && |RangesOf(m[k..][..n])| == n
  {
  }

  lemma {:induction false} CallbackOnRanges(found: seq<Range>, rx: seq<byte>, more: seq<Range>, uuid: Uuid, mtu: nat)
    requires DecRanges(rx) == more && more != [] && mtu >= 23
    ensures var end := more[|more| - 1].end;
            ByUuidCallback(found, 0, rx, uuid, mtu) ==
            if end == 0xFFFF then Told(found + more, 0) else Asking(found + more, UuidRequest(end + 1, uuid, mtu))
  {
    hide DecRanges;
  }

  lemma {:induction false} RangesRound(db: seq<Service>, p: Progress<Range>, k: nat, uuid: Uuid, rx: seq<byte>,
        mtu: nat)
    returns (n: nat)
    requires Services(db) && AsksForRanges(Matching(db, UuidOctets(uuid)), p, k, uuid, mtu) && mtu >= 23
    requires RangesAnswer(db, p.request, rx, mtu)
    ensures var m := Matching(db, UuidOctets(uuid));
            var q := ByUuidCallback(p.found, StatusOf(0x07, rx), rx, uuid, mtu);
            if q.Told? then q == Told(RangesOf(m), 0) else n > 0 && AsksForRanges(m, q, k + n, uuid, mtu)
  {
    hide RangesAnswer, Services, ByUuidCallback, Matching;
    var m := Matching(db, UuidOctets(uuid));
    var cut;
    n, cut := RangesAnswerFor(db, k, uuid, rx, mtu);
    MatchingIsOrdered(db, UuidOctets(uuid));
    if k == |m| {
      NoRangesLeft(m, p, k, uuid, rx, mtu);
    } else {
      RangesPduRead(m[k..], n, cut, rx);
      RangesFound(m, p, k, n, uuid, rx, mtu);
    }
  }

  lemma {:induction false} NoRangesLeft(m: seq<Service>, p: Progress<Range>, k: nat, uuid: Uuid, rx: seq<byte>,
        mtu: nat)
    requires AsksForRanges(m, p, k, uuid, mtu) && mtu >= 23 && k == |m|
    requires rx == EncError(0x06, NextHandle(m, k), ATT_ECODE_ATTR_NOT_FOUND, mtu)
    ensures ByUuidCallback(p.found, StatusOf(0x07, rx), rx, uuid, mtu) == Told(RangesOf(m), 0)
  {
    assert m[..k] == m;
  }

  function ByUuidStep(p: Progress<Range>, call: Call, uuid: Uuid, mtu: nat): Progress<Range> {
    if p.Asking? then ByUuidCallback(p.found, call.status, call.rx, uuid, mtu) else p
  }

  function ByUuidRun(p: Progress<Range>, calls: seq<Call>, uuid: Uuid, mtu: nat): Progress<Range>
    decreases calls
  {
    if calls == [] then p else ByUuidRun(ByUuidStep(p, calls[0], uuid, mtu), calls[1..], uuid, mtu)
  }

  ghost predicate ByUuidAnswered(db: seq<Service>, p: Progress<Range>, calls: seq<Call>, uuid: Uuid, mtu: nat)
    decreases calls
  {
    calls == [] ||
    (p.Asking? && Delivered(0x07, calls[0]) && RangesAnswer(db, p.request, calls[0].rx, mtu)
     && ByUuidAnswered(db, ByUuidStep(p, calls[0], uuid, mtu), calls[1..], uuid, mtu))
  }

  lemma {:induction false} ByUuidFromHere(db: seq<Service>, p: Progress<Range>, k: nat, calls: seq<Call>,
        uuid: Uuid, mtu: nat)
    requires Services(db) && AsksForRanges(Matching(db, UuidOctets(uuid)), p, k, uuid, mtu) && mtu >= 23
    requires ByUuidAnswered(db, p, calls, uuid, mtu)
    ensures var m, q := Matching(db, UuidOctets(uuid)), ByUuidRun(p, calls, uuid, mtu);
            && |calls| <= |m| - k + 1 && (|calls| == |m| - k + 1 ==> q.Told?)
            && (q.Asking? || q == Told(RangesOf(m), 0))
    decreases calls
  {
    hide ByUuidCallback, RangesAnswer, StatusOf, Services, UuidRequest, Matching, RangesOf, ByUuidStep, AsksForRanges;
    if calls != [] {
      ByUuidAnsweredHead(db, p, calls, uuid, mtu);
      var n := ByUuidStepRound(db, p, k, uuid, calls[0], mtu);
      var q := ByUuidStep(p, calls[0], uuid, mtu);
      if q.Told? {
        assert calls[1..] == [];
      } else {
        ByUuidFromHere(db, q, k + n, calls[1..], uuid, mtu);
      }
    }
    AsksForRangesBound(Matching(db, UuidOctets(uuid)), p, k, uuid, mtu);
  }

  lemma {:induction false} AsksForRangesBound(m: seq<Service>, p: Progress<Range>, k: nat, uuid: Uuid, mtu: nat)
    requires AsksForRanges(m, p, k, uuid, mtu)
    ensures p.Asking? && k <= |m|
  {
  }

  lemma {:induction false} ByUuidAnsweredHead(db: seq<Service>, p: Progress<Range>, calls: seq<Call>,
        uuid: Uuid, mtu: nat)
    requires ByUuidAnswered(db, p, calls, uuid, mtu) && calls != []
    ensures p.Asking? && Delivered(0x07, calls[0]) && RangesAnswer(db, p.request, calls[0].rx, mtu)
    ensures ByUuidAnswered(db, ByUuidStep(p, calls[0], uuid, mtu), calls[1..], uuid, mtu)
  {
    hide RangesAnswer, ByUuidStep;
  }

  lemma {:induction false} ByUuidStepRound(db: seq<Service>, p: Progress<Range>, k: nat, uuid: Uuid, call: Call,
        mtu: nat)
    returns (n: nat)
    requires Services(db) && AsksForRanges(Matching(db, UuidOctets(uuid)), p, k, uuid, mtu) && mtu >= 23
    requires Delivered(0x07, call) && RangesAnswer(db, p.request, call.rx, mtu)
    ensures var m, q := Matching(db, UuidOctets(uuid)), ByUuidStep(p, call, uuid, mtu);
            if q.Told? then q == Told(RangesOf(m), 0) else n > 0 && AsksForRanges(m, q, k + n, uuid, mtu)
  {
    hide RangesAnswer, Services, ByUuidCallback, Matching, RangesOf, AsksForRanges, StatusOf;
    AsksForRangesBound(Matching(db, UuidOctets(uuid)), p, k, uuid, mtu);
    n := RangesRound(db, p, k, uuid, call.rx, mtu);
  }

  /** gatt_discover_primary with a UUID: the user is given exactly the ranges of the matching services, in order. */
  lemma {:induction false} MatchingServicesAreFound(db: seq<Service>, calls: seq<Call>, uuid: Uuid, mtu: nat)
    requires Services(db) && mtu >= 23
    requires ByUuidAnswered(db, Asking([], UuidRequest(1, uuid, mtu)), calls, uuid, mtu)
    ensures var m, q := Matching(db, UuidOctets(uuid)), ByUuidRun(Asking([], UuidRequest(1, uuid, mtu)), calls, uuid,
            mtu);
            && |calls| <= |m| + 1 && (|calls| == |m| + 1 ==> q.Told?)
            && (q.Asking? || q == Told(RangesOf(m), 0))
  {
    ByUuidFromHere(db, Asking([], UuidRequest(1, uuid, mtu)), 0, calls, uuid, mtu);
  }

  lemma {:induction false} ByUuidStaysDone(q: Progress<Range>, calls: seq<Call>, uuid: Uuid, mtu: nat)
    requires !q.Asking?
    ensures ByUuidRun(q, calls, uuid, mtu) == q
    decreases calls
  {
    if calls != [] { ByUuidStaysDone(q, calls[1..], uuid, mtu); }
  }

  /** What is told at some call is the result. */
  lemma {:induction false} ByUuidEndsWith(p: Progress<Range>, calls: seq<Call>, i: nat, uuid: Uuid, mtu: nat)
    requires i < |calls| && !ByUuidStep(ByUuidRun(p, calls[..i], uuid, mtu), calls[i], uuid, mtu).Asking?
    ensures ByUuidRun(p, calls, uuid, mtu) == ByUuidStep(ByUuidRun(p, calls[..i], uuid, mtu), calls[i], uuid, mtu)
    decreases calls
  {
    hide ByUuidStep;
    if i == 0 {
      assert ByUuidRun(p, calls[..0], uuid, mtu) == p;
      ByUuidStaysDone(ByUuidStep(p, calls[0], uuid, mtu), calls[1..], uuid, mtu);
    } else {
      assert calls[..i][1..] == calls[1..][..i - 1];
      ByUuidEndsWith(ByUuidStep(p, calls[0], uuid, mtu), calls[1..], i - 1, uuid, mtu);
    }
  }

  /** The same for a discovery by UUID; a successful PDU without ranges ends it without error. */
  lemma {:induction false} ByUuidTellsErrors(p: Progress<Range>, calls: seq<Call>, uuid: Uuid, mtu: nat, i: nat)
    requires i < |calls| && ByUuidRun(p, calls[..i], uuid, mtu).Asking?
    ensures var found, status := ByUuidRun(p, calls[..i], uuid, mtu).found, calls[i].status;
            && (status != 0 ==> ByUuidRun(p, calls, uuid, mtu) == Told(found, if status == 0x0A then 0 else status))
            && (status == 0 && (|calls[i].rx| < 5 || calls[i].rx[0] != 0x07) ==>
                  ByUuidRun(p, calls, uuid, mtu) == Told(found, 0))
  {
    hide ByUuidRun;
    if calls[i].status != 0 || |calls[i].rx| < 5 || calls[i].rx[0] != 0x07 { ByUuidEndsWith(p, calls, i, uuid, mtu); }
  }

  /** The requests on the wire: opcode, first and last handle, the type 0x2800, and the value searched for. */
  lemma {:induction false} RequestsAre(start: u16, uuid: Uuid, mtu: nat)
    requires mtu >= 23
    ensures GroupRequest(start, mtu) == [0x10, start % 0x100, start / 0x100, 0xFF, 0xFF, 0x00, 0x28]
    ensures UuidRequest(start, uuid, mtu) ==
            [0x06, start % 0x100, start / 0x100, 0xFF, 0xFF, 0x00, 0x28] +
            if uuid.Uuid16? then [uuid.word % 0x100, uuid.word / 0x100] else uuid.octets
  {
    RequestLayouts(0x10, start, 0xFFFF, 0x2800, seq(16, _ => 0), UuidOctets(uuid), mtu);
    hide EncRangeReq, EncFindByTypeReq;
    assert UuidOctets(uuid)[..|UuidOctets(uuid)|] == UuidOctets(uuid);
  }

  /** What a server stores for a service: first and last handle, then the UUID, each word low octet first. */
  lemma {:induction false} ServiceLayout(v: Service)
    ensures ServiceOctets(v) ==
            [v.start % 0x100, v.start / 0x100, v.end % 0x100, v.end / 0x100] +
            if v.uuid.Uuid16? then [v.uuid.word % 0x100, v.uuid.word / 0x100] else v.uuid.octets
  {
    assert PutU16(v.start) + PutU16(v.end) == [v.start % 0x100, v.start / 0x100, v.end % 0x100, v.end / 0x100];
  }

  /** What enc_read_by_grp_resp builds from a run of one width is a legal response, so legal servers exist. */
  lemma {:induction false} EncoderGroupsLegally(left: seq<Service>, n: nat, elen: nat, mtu: u16) returns (m: nat)
    requires GroupRun(left, n, elen, []) && mtu >= 23
    ensures GroupRun(left, m, elen, []) && EncGroupResp(ServicesOctets(left[..n]), elen, mtu) ==
            GroupPdu(left, m, elen, [])
  {
    var list := ServicesOctets(left[..n]);
    var fit := Fitting(list, elen, mtu - 2);
    m := |fit|;
    assert list != [] && m > 0;
    assert fit == list[..m] == ServicesOctets(left[..m]) by { assert left[..n][..m] == left[..m]; }
    assert Flat(fit) + [] == Flat(fit);
  }

  // ----- the record of the procedure, updated in place -----

  /** struct discover_primary. */
  class DiscoverPrimary {
    var primaries: seq<Primary>
    var ranges: seq<Range>

    constructor ()
      ensures primaries == [] && ranges == []
    {
      primaries, ranges := [], [];
    }

    /** primary_all_cb, with its loop over the elements. */
    method OnGroup(status: byte, rx: seq<byte>, mtu: nat) returns (next: Progress<Primary>)
      modifies this`primaries
      ensures next == AllCallback(old(primaries), status, rx, mtu) && primaries == next.found
    {
      hide PrimariesOf, LastEnd, Split, GroupRequest;
      if status != 0 { return Told(primaries, ErrorOf(status)); }
      if At(rx, 0) != 0x11 { return Told(primaries, ATT_ECODE_IO); }
      if At(rx, 1) == 0 { return Crashed(primaries); }
      var list := Split(rx[2..], rx[1]);
      var end := Collect(list);
      if end.None? { return Overread(primaries); }
      if end.value != 0xFFFF { return Asking(primaries, GroupRequest(end.value + 1, mtu)); }
      return Told(primaries, 0);
    }

    /** The loop over elements of one length; None if it reads behind the first of them. */
    method Collect(list: seq<seq<byte>>) returns (last: Option<u16>)
      modifies this`primaries
      ensures if LongEnough(list) then primaries == old(primaries) + PrimariesOf(list) && last == Some(LastEnd(list))
              else primaries == old(primaries) && last == None
    {
      hide PrimaryOf, PrimariesOf, LastEnd, WordAt;
      if list != [] && |list[0]| < 4 { return None; }
      var end := 0;
      var i := 0;
      ghost var was := primaries;
      NoPrimariesYet(list);
      while i < |list|
        invariant 0 <= i <= |list|
        invariant primaries == was + PrimariesOf(list[..i]) && end == LastEnd(list[..i])
      {
        OneMore(was, list, i);
        end := WordAt(list[i], 2);
        primaries := primaries + PrimaryOf(list[i]);
        i := i + 1;
      }
      assert list[..|list|] == list;
      last := Some(end);
    }

    /** primary_by_uuid_cb. */
    method OnRanges(status: byte, rx: seq<byte>, uuid: Uuid, mtu: nat) returns (next: Progress<Range>)
      modifies this`ranges
      ensures next == ByUuidCallback(old(ranges), status, rx, uuid, mtu) && ranges == next.found
    {
      if status != 0 { return Told(ranges, ErrorOf(status)); }
      var more := DecRanges(rx);
      if more == [] { return Told(ranges, 0); }
      ranges := ranges + more;
      var end := more[|more| - 1].end;
      if end == 0xFFFF { return Told(ranges, 0); }
      var request := UuidRequest(end + 1, uuid, mtu);
      if request == [] { return Told(ranges, 0); }
      return Asking(ranges, request);
    }
  }
}
