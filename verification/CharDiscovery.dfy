/**
 Discovery of characteristics in a handle range, with an optional UUID filter
 (gatt.c; sections 4.6.1 and 4.6.2 of Bluetooth Core Specification Vol 3
 Part G), against any server that answers as the protocol demands.
 */
module CharDiscovery {
  import opened Octets
  import opened AttPdu
  import opened Scheduler
  import opened PrimaryDiscovery

  const CHARACTERISTIC := Uuid16(0x2803)
  const ATT_ECODE_INVALID_HANDLE: byte := 0x01

  /** A characteristic declaration as the server holds it. */
  datatype Declaration = Declaration(handle: u16, properties: byte, valueHandle: u16, uuid: Uuid)

  /** struct gatt_char; the UUID is always reported in its 128-bit form. */
  datatype Characteristic = Characteristic(handle: u16, properties: byte, valueHandle: u16, uuid: Octets16)

  /** The UUID the caller wants, in the 128-bit form in which bt_uuid_cmp compares. */
  type Filter = Option<Octets16>

  predicate Wanted(c: Characteristic, filter: Filter) {
    filter.None? || filter.value == c.uuid
  }

  // ----- the client -----

  function CharRequest(start: u16, end: u16, mtu: nat): seq<byte> {
    EncRangeReq(0x08, start, end, CHARACTERISTIC, mtu)
  }

  function CharOf(e: seq<byte>): Characteristic {
    Characteristic(WordAt(e, 0), At(e, 2), WordAt(e, 3), if |e| == 7 then Widen(WordAt(e, 5)) else Window(e, 5, 16))
  }

  function CharsOf(list: seq<seq<byte>>): (cs: seq<Characteristic>)
    ensures |cs| == |list| && forall i :: 0 <= i < |list| ==> cs[i] == CharOf(list[i])
  {
    seq(|list|, i requires 0 <= i < |list| => CharOf(list[i]))
  }

  /** How many elements precede the first unwanted one, at which the loop breaks. */
  function Taken(cs: seq<Characteristic>, filter: Filter): (a: nat)
    ensures a <= |cs| && (forall i :: 0 <= i < a ==> Wanted(cs[i], filter)) && (a < |cs| ==> !Wanted(cs[a], filter))
  {
    if cs == [] || !Wanted(cs[0], filter) then 0 else 1 + Taken(cs[1..], filter)
  }

  /** How many elements the loop looks at, the unwanted one included. */
  function Looked(cs: seq<Characteristic>, filter: Filter): (n: nat)
    ensures n <= |cs| && (cs != [] ==> n > 0)
  {
    Min(Taken(cs, filter) + 1, |cs|)
  }

  /** The handle in `last` when the loop ends. */
  function Last(cs: seq<Characteristic>, filter: Filter): u16 {
    if cs == [] then 0 else cs[Looked(cs, filter) - 1].handle
  }

  function Continue(found: seq<Characteristic>, last: u16, end: u16, mtu: nat): Progress<Characteristic> {
    if last != 0 && last + 1 < end then Asking(found, CharRequest(last + 1, end, mtu)) else Told(found, 0)
  }

  /** An element is read as a 16-bit declaration if it has 7 octets, and as a 128-bit one of 21 octets otherwise. */
  predicate Formatted(list: seq<seq<byte>>) {
    list == [] || |list[0]| == 7 || |list[0]| >= 21
  }

  /** char_discovered_cb. */
  function CharCallback(found: seq<Characteristic>, status: byte, rx: seq<byte>, end: u16, filter: Filter, mtu: nat)
    : Progress<Characteristic>
  {
    if status != 0 then Told(found, ErrorOf(status))
    else
      match DecListResp(0x09, rx)
      case DivisionByZero => Crashed(found)
      case OtherOpcode => Told(found, ATT_ECODE_IO)
      case Elements(list) =>
        if !Formatted(list) then Overread(found) else
        var cs := CharsOf(list);
        Continue(found + cs[..Taken(cs, filter)], Last(cs, filter), end, mtu)
  }

  // ----- the server -----

  /**
   Declarations in ascending order; each is followed by its value attribute, so
   no two of them have adjacent handles.
   */
  ghost predicate Declarations(db: seq<Declaration>) {
    && (forall i :: 0 <= i < |db| ==> 1 <= db[i].handle && !db[i].uuid.Uuid32?)
    && (forall i, j :: 0 <= i < j < |db| ==> db[i].handle + 1 < db[j].handle)
  }

  function InRange(db: seq<Declaration>, start: nat, end: nat): seq<Declaration> {
    if db == [] then [] else (if start <= db[0].handle <= end then [db[0]] else []) + InRange(db[1..], start, end)
  }

  function DeclarationOctets(d: Declaration): seq<byte> {
    PutU16(d.handle) + [d.properties] + PutU16(d.valueHandle) + UuidOctets(d.uuid)
  }

  function DeclarationsOctets(db: seq<Declaration>): (list: seq<seq<byte>>)
    ensures |list| == |db| && forall i :: 0 <= i < |db| ==> list[i] == DeclarationOctets(db[i])
  {
    seq(|db|, i requires 0 <= i < |db| => DeclarationOctets(db[i]))
  }

  /** Which bounds a server refuses outright. */
  predicate BadBounds(start: u16, end: u16) {
    start == 0 || start > end
  }

  /**
   A legal response to a read-by-type request for declarations: an error for
   bad bounds or when nothing is in range, or any non-empty run of the
   declarations in range whose UUIDs have one width, possibly cut in the middle
   of a further element.
   */
  ghost predicate CharAnswer(db: seq<Declaration>, request: seq<byte>, rx: seq<byte>, mtu: nat) {
    exists start: u16, end: u16 :: DecRangeReq(0x08, request) == Some((start, end, CHARACTERISTIC)) &&
      CharReply(InRange(db, start, end), start, end, rx, mtu)
  }

  ghost predicate CharReply(left: seq<Declaration>, start: u16, end: u16, rx: seq<byte>, mtu: nat) {
    if BadBounds(start, end) then rx == EncError(0x08, start, ATT_ECODE_INVALID_HANDLE, mtu)
    else if left == [] then rx == EncError(0x08, start, ATT_ECODE_ATTR_NOT_FOUND, mtu)
    else exists n: nat, elen: nat, cut: seq<byte> :: CharRun(left, n, elen, cut) && rx == CharPdu(left, n, elen, cut)
  }

  ghost predicate CharRun(left: seq<Declaration>, n: nat, elen: nat, cut: seq<byte>) {
    1 <= n <= |left| && (elen == 7 || elen == 21) && |cut| < elen && Uniform(DeclarationsOctets(left[..n]), elen)
  }

  function CharPdu(left: seq<Declaration>, n: nat, elen: nat, cut: seq<byte>): seq<byte>
    requires n <= |left| && elen < 0x100
  {
    [0x09, elen] + (Flat(DeclarationsOctets(left[..n])) + cut)
  }

  // ----- what a client must find -----

  function Reporting(d: Declaration): Characteristic
    requires !d.uuid.Uuid32?
  {
    Characteristic(d.handle, d.properties, d.valueHandle, Uuid128Of(d.uuid))
  }

  function AllReporting(db: seq<Declaration>): (cs: seq<Characteristic>)
    requires forall i :: 0 <= i < |db| ==> !db[i].uuid.Uuid32?
    ensures |cs| == |db| && forall i :: 0 <= i < |db| ==> cs[i] == Reporting(db[i])
  {
    seq(|db|, i requires 0 <= i < |db| => Reporting(db[i]))
  }

  /** The wanted ones, in order. */
  function Matches(cs: seq<Characteristic>, filter: Filter): seq<Characteristic> {
    if cs == [] then [] else Matches(cs[..|cs| - 1], filter) + if Wanted(cs[|cs| - 1], filter) then [cs[|cs| - 1]]
        else []
  }

  /** The result of the procedure: the filtered list of everything in range, or the refusal of bad bounds. */
  function Expected(db: seq<Declaration>, start: u16, end: u16, filter: Filter): Progress<Characteristic>
    requires forall d :: d in db ==> !d.uuid.Uuid32?
  {
    if BadBounds(start, end) then Told([], ATT_ECODE_INVALID_HANDLE)
    else InRangeMembers(db, start, end); Told(Matches(AllReporting(InRange(db, start, end)), filter), 0)
  }

  // ----- the range -----

  lemma {:induction false} InRangeMembers(db: seq<Declaration>, start: nat, end: nat)
    ensures forall d :: d in InRange(db, start, end) ==> d in db && start <= d.handle <= end
  {
    if db != [] { InRangeMembers(db[1..], start, end); }
  }

  lemma {:induction false} InRangeSplit(db: seq<Declaration>, start: nat, end: nat)
    requires db != []
    ensures var rest := InRange(db[1..], start, end);
            InRange(db, start, end) == if start <= db[0].handle <= end then [db[0]] + rest else rest
  {
  }

  lemma {:induction false} InRangeIsOrdered(db: seq<Declaration>, start: nat, end: nat)
    requires Declarations(db)
    ensures Declarations(InRange(db, start, end))
  {
    if db != [] {
      hide InRange;
      InRangeIsOrdered(db[1..], start, end);
      InRangeMembers(db[1..], start, end);
      InRangeSplit(db, start, end);
      var rest := InRange(db[1..], start, end);
      forall i | 0 <= i < |rest| ensures db[0].handle + 1 < rest[i].handle { assert rest[i] in db[1..]; }
    }
  }

  /** Narrowing a range twice is narrowing it once. */
  lemma {:induction false} InRangeTwice(db: seq<Declaration>, start: nat, later: nat, end: nat)
    requires start <= later
    ensures InRange(InRange(db, start, end), later, end) == InRange(db, later, end)
  {
    if db != [] {
      InRangeTwice(db[1..], start, later, end);
      var rest := InRange(db[1..], start, end);
      assert ([db[0]] + rest)[1..] == rest && [] + rest == rest;
    }
  }

  lemma {:induction false} InRangeSuffix(left: seq<Declaration>, k: nat, start: nat, end: nat)
    requires k <= |left| && forall d :: d in left ==> d.handle <= end
    requires (forall i :: 0 <= i < k ==> left[i].handle < start)
             && (forall i :: k <= i < |left| ==> start <= left[i].handle)
    ensures InRange(left, start, end) == left[k..]
  {
    if left != [] {
      InRangeSuffix(left[1..], if k == 0 then 0 else k - 1, start, end);
      if k > 0 { assert left[1..][k - 1..] == left[k..]; }
    }
  }

  /** The first handle to ask for once k declarations of the range are known. */
  function NextStart(left: seq<Declaration>, k: nat, start: nat): nat
    requires k <= |left|
  {
    if k == 0 then start else left[k - 1].handle + 1
  }

  /** The first k declarations lie below the next handle to ask for, the others do not. */
  lemma {:induction false} Bounds(left: seq<Declaration>, k: nat, next: nat)
    requires Declarations(left) && k <= |left| && (if k == 0 then forall i :: 0 <= i < |left| ==>
             next <= left[i].handle else next == left[k - 1].handle + 1)
    ensures forall i :: 0 <= i < k ==> left[i].handle < next
    ensures forall i :: k <= i < |left| ==> next <= left[i].handle
  {
    if k > 0 {
      forall i | 0 <= i < k ensures left[i].handle < next { assert i < k - 1 ==>
          left[i].handle + 1 < left[k - 1].handle; }
    }
  }

  lemma {:induction false} RangeFromNext(db: seq<Declaration>, k: nat, start: nat, end: nat)
    requires Declarations(db) && k <= |InRange(db, start, end)|
    ensures var left := InRange(db, start, end); InRange(db, NextStart(left, k, start), end) == left[k..]
  {
    var left := InRange(db, start, end);
    InRangeIsOrdered(db, start, end);
    InRangeMembers(db, start, end);
    var next := NextStart(left, k, start);
    if k > 0 { assert left[k - 1] in left; }
    InRangeTwice(db, start, next, end);
    hide InRange;
    Bounds(left, k, next);
    InRangeSuffix(left, k, next, end);
  }

  // ----- filtering -----

  lemma {:induction false} MatchesConcat(a: seq<Characteristic>, b: seq<Characteristic>, filter: Filter)
    ensures Matches(a + b, filter) == Matches(a, filter) + Matches(b, filter)
  {
    if b == [] {
      assert a + b == a;
    } else {
      var init := b[..|b| - 1];
      MatchesConcat(a, init, filter);
      assert (a + b)[..|a + b| - 1] == a + init;
    }
  }

  lemma {:induction false} MatchesAll(cs: seq<Characteristic>, filter: Filter)
    requires forall i :: 0 <= i < |cs| ==> Wanted(cs[i], filter)
    ensures Matches(cs, filter) == cs
  {
    if cs != [] { MatchesAll(cs[..|cs| - 1], filter); }
  }

  /** What the loop appends is what it should keep of the elements it looks at. */
  lemma {:induction false} LookedMatches(cs: seq<Characteristic>, filter: Filter)
    ensures Matches(cs[..Looked(cs, filter)], filter) == cs[..Taken(cs, filter)]
  {
    var a, n := Taken(cs, filter), Looked(cs, filter);
    assert forall i :: 0 <= i < a ==> Wanted(cs[i], filter);
    MatchesAll(cs[..a], filter);
    if n > a {
      hide Matches, Taken, Looked;
      MatchesUnwanted(cs, a, filter);
    }
  }

  lemma {:induction false} MatchesUnwanted(cs: seq<Characteristic>, a: nat, filter: Filter)
    requires a < |cs| && !Wanted(cs[a], filter)
    ensures Matches(cs[..a + 1], filter) == Matches(cs[..a], filter)
  {
    var n := a + 1;
    assert cs[..n][..a] == cs[..a] && cs[..n][a] == cs[a];
  }

  // ----- reading a response -----

  lemma {:induction false} CharOfDeclaration(d: Declaration)
    requires !d.uuid.Uuid32?
    ensures CharOf(DeclarationOctets(d)) == Reporting(d)
  {
    var e, u := DeclarationOctets(d), UuidOctets(d.uuid);
    assert e[0..2] == PutU16(d.handle) && e[3..5] == PutU16(d.valueHandle) && e[5..5 + |u|] == u;
    hide Widen;
    if d.uuid.Uuid16? { WidenIs(d.uuid.word); }
  }

  lemma {:induction false} CharsOfDeclarations(db: seq<Declaration>)
    requires forall i :: 0 <= i < |db| ==> !db[i].uuid.Uuid32?
    ensures CharsOf(DeclarationsOctets(db)) == AllReporting(db)
  {
    hide CharOf, DeclarationOctets, Reporting;
    forall i | 0 <= i < |db| ensures CharsOf(DeclarationsOctets(db))[i] == AllReporting(db)[i] {
      CharOfDeclaration(db[i]);
    }
  }

  lemma {:induction false} CharPduRead(left: seq<Declaration>, n: nat, elen: nat, cut: seq<byte>, rx: seq<byte>)
    requires CharRun(left, n, elen, cut) && rx == CharPdu(left, n, elen, cut)
    ensures StatusOf(0x09, rx) == 0
    ensures DecListResp(0x09, rx) == Elements(DeclarationsOctets(left[..n]))
  {
    var list := DeclarationsOctets(left[..n]);
    SplitWithCut(list, elen, cut);
    hide Flat, Split, DeclarationsOctets;
    assert rx[2..] == Flat(list) + cut;
  }

  // ----- one round trip -----

  /** The first k declarations of the range are known and the procedure asks for the rest. */
  ghost predicate AsksFrom(left: seq<Declaration>, p: Progress<Characteristic>, k: nat, start: u16, end: u16,
        filter: Filter, mtu: nat)
    requires forall i :: 0 <= i < |left| ==> !left[i].uuid.Uuid32?
  {
    && p.Asking? && k <= |left| && 1 <= NextStart(left, k, start) <= end
    && p.found == Matches(AllReporting(left[..k]), filter) && p.request ==
       CharRequest(NextStart(left, k, start), end, mtu)
  }

  lemma {:induction false} CharAnswerFor(db: seq<Declaration>, start: u16, end: u16, rx: seq<byte>, mtu: nat)
    requires mtu >= 23 && CharAnswer(db, CharRequest(start, end, mtu), rx, mtu)
    ensures CharReply(InRange(db, start, end), start, end, rx, mtu)
  {
    RangeReqRoundTrip(0x08, start, end, CHARACTERISTIC, mtu);
    hide EncRangeReq, DecRangeReq, InRange, CharReply;
  }

  lemma {:induction false} ReportingConcat(left: seq<Declaration>, k: nat, n: nat)
    requires k + n <= |left| && forall i :: 0 <= i < |left| ==> !left[i].uuid.Uuid32?
    ensures AllReporting(left[..k + n]) == AllReporting(left[..k]) + AllReporting(left[k..k + n])
  {
  }

  lemma {:induction false} ReportingPrefix(left: seq<Declaration>, k: nat, n: nat, c: nat)
    requires c <= n && k + n <= |left| && forall i :: 0 <= i < |left| ==> !left[i].uuid.Uuid32?
    ensures AllReporting(left[k..][..n])[..c] == AllReporting(left[k..k + c])
  {
  }

  lemma {:induction false} CallbackOnChars(
      found: seq<Characteristic>, rx: seq<byte>, list: seq<seq<byte>>, cs: seq<Characteristic>, end: u16,
          filter: Filter, mtu: nat)
    requires DecListResp(0x09, rx) == Elements(list) && Formatted(list) && CharsOf(list) == cs
    ensures CharCallback(found, 0, rx, end, filter, mtu) ==
            Continue(found + cs[..Taken(cs, filter)], Last(cs, filter), end, mtu)
  {
  }

  /** Of n received declarations the loop looks at c, and keeps what it should of them. */
  lemma {:induction false} LookedAt(left: seq<Declaration>, k: nat, n: nat, filter: Filter) returns (c: nat)
    requires (forall i :: 0 <= i < |left| ==> !left[i].uuid.Uuid32?) && 1 <= n <= |left| - k
    ensures 1 <= c <= n
    ensures var cs := AllReporting(left[k..][..n]);
            && Matches(AllReporting(left[..k]), filter) + cs[..Taken(cs, filter)] ==
               Matches(AllReporting(left[..k + c]), filter)
            && Last(cs, filter) == left[k + c - 1].handle
  {
    hide Matches, Taken, Looked, AllReporting, Reporting, Last;
    var cs := AllReporting(left[k..][..n]);
    c := Looked(cs, filter);
    LastLooked(left, k, n, filter);
    LookedMatches(cs, filter);
    ReportingConcat(left, k, c);
    ReportingPrefix(left, k, n, c);
    MatchesConcat(AllReporting(left[..k]), AllReporting(left[k..k + c]), filter);
  }

  lemma {:induction false} LastLooked(left: seq<Declaration>, k: nat, n: nat, filter: Filter)
    requires (forall i :: 0 <= i < |left| ==> !left[i].uuid.Uuid32?) && 1 <= n <= |left| - k
    ensures var cs := AllReporting(left[k..][..n]); Last(cs, filter) == left[k + Looked(cs, filter) - 1].handle
  {
    hide Looked;
  }

  /** The value attribute in between is why stopping at `last + 1 == end` misses nothing. */
  lemma {:induction false} RoomForMore(left: seq<Declaration>, k: nat, end: u16)
    requires Declarations(left) && 1 <= k < |left| && left[k].handle <= end
    ensures left[k - 1].handle + 1 < end
  {
  }

  /** What the loop decides once c more declarations are known. */
  lemma {:induction false} Decided(left: seq<Declaration>, k: nat, found: seq<Characteristic>, start: u16, end: u16,
        filter: Filter, mtu: nat)
    requires Declarations(left) && 1 <= k <= |left| && found == Matches(AllReporting(left[..k]), filter)
    requires forall i :: 0 <= i < |left| ==> left[i].handle <= end
    ensures var q := Continue(found, left[k - 1].handle, end, mtu);
            if q.Told? then q == Told(Matches(AllReporting(left), filter), 0)
                else AsksFrom(left, q, k, start, end, filter, mtu)
  {
    if k < |left| { RoomForMore(left, k, end); }
    assert k == |left| ==> left[..k] == left;
    hide Matches, AllReporting, CharRequest;
  }

  lemma {:induction false} CharRound(
      db: seq<Declaration>, p: Progress<Characteristic>, k: nat, start: u16, end: u16, filter: Filter, rx: seq<byte>,
          mtu: nat)
    returns (c: nat)
    requires Declarations(db) && Declarations(InRange(db, start, end)) && mtu >= 23
    requires AsksFrom(InRange(db, start, end), p, k, start, end, filter, mtu) && CharAnswer(db, p.request, rx, mtu)
    ensures var left := InRange(db, start, end);
            var q := CharCallback(p.found, StatusOf(0x09, rx), rx, end, filter, mtu);
            if q.Told? then q == Told(Matches(AllReporting(left), filter), 0)
            else 1 <= c && AsksFrom(left, q, k + c, start, end, filter, mtu)
  {
    var left := InRange(db, start, end);
    var next := NextStart(left, k, start);
    RangeFromNext(db, k, start, end);
    BelowEnd(db, start, end);
    hide InRange, Declarations, CharAnswer, CharCallback, CharReply, Matches, AllReporting;
    CharAnswerFor(db, next, end, rx, mtu);
    c := ReplyRound(left, p, k, start, end, filter, rx, mtu);
  }

  /** The same, in terms of the declarations in range. */
  lemma {:induction false} ReplyRound(
      left: seq<Declaration>, p: Progress<Characteristic>, k: nat, start: u16, end: u16, filter: Filter, rx: seq<byte>,
          mtu: nat)
    returns (c: nat)
    requires Declarations(left) && mtu >= 23 && forall i :: 0 <= i < |left| ==> left[i].handle <= end
    requires AsksFrom(left, p, k, start, end, filter, mtu) && CharReply(left[k..], NextStart(left, k, start), end, rx,
             mtu)
    ensures var q := CharCallback(p.found, StatusOf(0x09, rx), rx, end, filter, mtu);
            if q.Told? then q == Told(Matches(AllReporting(left), filter), 0)
            else 1 <= c && AsksFrom(left, q, k + c, start, end, filter, mtu)
  {
    hide Declarations, CharCallback, Matches, AllReporting, CharRequest, StatusOf, CharReply;
    NoneUnknown(left);
    if k == |left| {
      assert left[..k] == left && left[k..] == [];
      c := 0;
      NoCharsLeft(p.found, NextStart(left, k, start), end, filter, rx, mtu);
    } else {
      c := SomeCharsFound(left, k, p.found, start, end, filter, rx, mtu);
    }
  }

  lemma {:induction false} SomeCharsFound(
      left: seq<Declaration>, k: nat, found: seq<Characteristic>, start: u16, end: u16, filter: Filter, rx: seq<byte>,
          mtu: nat)
    returns (c: nat)
    requires Declarations(left) && k < |left| && forall i :: 0 <= i < |left| ==> left[i].handle <= end
    requires found == Matches(AllReporting(left[..k]), filter) && 1 <= NextStart(left, k, start) <= end
    requires CharReply(left[k..], NextStart(left, k, start), end, rx, mtu)
    ensures StatusOf(0x09, rx) == 0
    ensures var q := CharCallback(found, 0, rx, end, filter, mtu);
            if q.Told? then q == Told(Matches(AllReporting(left), filter), 0)
            else 1 <= c && AsksFrom(left, q, k + c, start, end, filter, mtu)
  {
    hide Declarations, CharCallback, Matches, AllReporting, Continue, StatusOf, Last, Taken, CharReply, AsksFrom;
    NoneUnknown(left);
    var n := CharReplyRead(left[k..], NextStart(left, k, start), end, rx, mtu, found, filter);
    c := LookedAt(left, k, n, filter);
    Decided(left, k + c, Matches(AllReporting(left[..k + c]), filter), start, end, filter, mtu);
  }

  lemma {:induction false} NoneUnknown(left: seq<Declaration>)
    requires Declarations(left)
    ensures forall i :: 0 <= i < |left| ==> !left[i].uuid.Uuid32?
  {
  }

  lemma {:induction false} BelowEnd(db: seq<Declaration>, start: u16, end: u16)
    ensures var left := InRange(db, start, end); forall i :: 0 <= i < |left| ==> left[i].handle <= end
  {
    InRangeMembers(db, start, end);
    hide InRange;
  }

  lemma {:induction false} CharReplyRead(
      left: seq<Declaration>, start: u16, end: u16, rx: seq<byte>, mtu: nat, found: seq<Characteristic>, filter: Filter)
    returns (n: nat)
    requires left != [] && !BadBounds(start, end) && CharReply(left, start, end, rx, mtu)
    requires forall i :: 0 <= i < |left| ==> !left[i].uuid.Uuid32?
    ensures 1 <= n <= |left| && StatusOf(0x09, rx) == 0
    ensures var cs := AllReporting(left[..n]);
            CharCallback(found, 0, rx, end, filter, mtu) == Continue(found + cs[..Taken(cs, filter)], Last(cs, filter),
                end, mtu)
  {
    var elen, cut;
    n, elen, cut :| CharRun(left, n, elen, cut) && rx == CharPdu(left, n, elen, cut);
    CharPduRead(left, n, elen, cut, rx);
    CharsOfDeclarations(left[..n]);
    hide CharCallback, CharPdu, Flat, Uniform, Continue, Taken, Last, AllReporting, DeclarationsOctets;
    CallbackOnChars(found, rx, DeclarationsOctets(left[..n]), AllReporting(left[..n]), end, filter, mtu);
  }

  lemma {:induction false} NoCharsLeft(found: seq<Characteristic>, start: u16, end: u16, filter: Filter, rx: seq<byte>,
        mtu: nat)
    requires mtu >= 23 && !BadBounds(start, end) && CharReply([], start, end, rx, mtu)
    ensures StatusOf(0x09, rx) != 0 && CharCallback(found, StatusOf(0x09, rx), rx, end, filter, mtu) == Told(found, 0)
  {
  }

  // ----- whole runs -----

  /** The state after the calls; a procedure that is done ignores further ones. */
  function CharStep(p: Progress<Characteristic>, call: Call, end: u16, filter: Filter,
        mtu: nat): Progress<Characteristic> {
    if p.Asking? then CharCallback(p.found, call.status, call.rx, end, filter, mtu)
    else p
  }

  function CharRunAll(p: Progress<Characteristic>, calls: seq<Call>, end: u16, filter: Filter,
        mtu: nat): Progress<Characteristic>
    decreases calls
  {
    if calls == [] then p else CharRunAll(CharStep(p, calls[0], end, filter, mtu), calls[1..], end, filter, mtu)
  }

  /** The server answers each request legally and sends nothing else. */
  ghost predicate CharAnswered(
      db: seq<Declaration>, p: Progress<Characteristic>, calls: seq<Call>, end: u16, filter: Filter, mtu: nat)
    decreases calls
  {
    calls == [] ||
    (p.Asking? && Delivered(0x09, calls[0]) && CharAnswer(db, p.request, calls[0].rx, mtu)
     && CharAnswered(db, CharStep(p, calls[0], end, filter, mtu), calls[1..], end, filter, mtu))
  }

  lemma {:induction false} CharsFromHere(
      db: seq<Declaration>, p: Progress<Characteristic>, k: nat, calls: seq<Call>, start: u16, end: u16,
          filter: Filter, mtu: nat)
    requires Declarations(db) && Declarations(InRange(db, start, end)) && mtu >= 23
    requires AsksFrom(InRange(db, start, end), p, k, start, end, filter, mtu)
    requires CharAnswered(db, p, calls, end, filter, mtu)
    ensures var left, q := InRange(db, start, end), CharRunAll(p, calls, end, filter, mtu);
            && |calls| <= |left| - k + 1 && (|calls| == |left| - k + 1 ==> q.Told?)
            && (q.Asking? || q == Told(Matches(AllReporting(left), filter), 0))
    decreases calls
  {
    hide CharCallback, CharAnswer, StatusOf, Declarations, CharRequest, InRange, Matches, AllReporting, CharStep,
        AsksFrom;
    NoneUnknown(InRange(db, start, end));
    AsksFromBound(InRange(db, start, end), p, k, start, end, filter, mtu);
    if calls != [] {
      CharAnsweredHead(db, p, calls, end, filter, mtu);
      var c := CharStepRound(db, p, k, start, end, filter, calls[0], mtu);
      var q := CharStep(p, calls[0], end, filter, mtu);
      if q.Told? {
        assert calls[1..] == [];
      } else {
        CharsFromHere(db, q, k + c, calls[1..], start, end, filter, mtu);
      }
    }
  }

  lemma {:induction false} AsksFromBound(
      left: seq<Declaration>, p: Progress<Characteristic>, k: nat, start: u16, end: u16, filter: Filter, mtu: nat)
    requires (forall i :: 0 <= i < |left| ==> !left[i].uuid.Uuid32?) && AsksFrom(left, p, k, start, end, filter, mtu)
    ensures p.Asking? && k <= |left|
  {
  }

  lemma {:induction false} CharAnsweredHead(
      db: seq<Declaration>, p: Progress<Characteristic>, calls: seq<Call>, end: u16, filter: Filter, mtu: nat)
    requires CharAnswered(db, p, calls, end, filter, mtu) && calls != []
    ensures p.Asking? && Delivered(0x09, calls[0]) && CharAnswer(db, p.request, calls[0].rx, mtu)
    ensures CharAnswered(db, CharStep(p, calls[0], end, filter, mtu), calls[1..], end, filter, mtu)
  {
    hide CharAnswer, CharStep;
  }

  lemma {:induction false} CharStepRound(
      db: seq<Declaration>, p: Progress<Characteristic>, k: nat, start: u16, end: u16, filter: Filter, call: Call,
          mtu: nat)
    returns (c: nat)
    requires Declarations(db) && Declarations(InRange(db, start, end)) && mtu >= 23
    requires AsksFrom(InRange(db, start, end), p, k, start, end, filter, mtu) && p.Asking?
             && Delivered(0x09, call) && CharAnswer(db, p.request, call.rx, mtu)
    ensures var left, q := InRange(db, start, end), CharStep(p, call, end, filter, mtu);
            if q.Told? then q == Told(Matches(AllReporting(left), filter), 0)
            else 1 <= c && AsksFrom(left, q, k + c, start, end, filter, mtu)
  {
    hide CharCallback, CharAnswer, StatusOf, InRange, Matches, AllReporting, AsksFrom;
    c := CharRound(db, p, k, start, end, filter, call.rx, mtu);
  }

  /**
   gatt_discover_char, with or without a UUID, for any bounds: although the
   loop stops at the first unwanted element of a response, the user is given
   exactly the wanted characteristics in range, in order, after at most one
   more round trip than the range has characteristics.
   */
  lemma {:induction false} FilteredDiscoveryIsFiltering(
      db: seq<Declaration>, calls: seq<Call>, start: u16, end: u16, filter: Filter, mtu: nat)
    requires Declarations(db) && mtu >= 23
    requires CharAnswered(db, Asking([], CharRequest(start, end, mtu)), calls, end, filter, mtu)
    ensures var q := CharRunAll(Asking([], CharRequest(start, end, mtu)), calls, end, filter, mtu);
            && |calls| <= |InRange(db, start, end)| + 1
            && (|calls| == |InRange(db, start, end)| + 1 ==> q.Told?)
            && (q.Asking? || q == Expected(db, start, end, filter))
  {
    var p := Asking([], CharRequest(start, end, mtu));
    InRangeIsOrdered(db, start, end);
    if BadBounds(start, end) {
      if calls != [] { RefusedAtOnce(db, calls, start, end, filter, mtu); }
    } else {
      hide CharRequest, CharAnswer, CharCallback, InRange;
      assert AsksFrom(InRange(db, start, end), p, 0, start, end, filter, mtu);
      CharsFromHere(db, p, 0, calls, start, end, filter, mtu);
    }
  }

  /** A response with at least one element, of neither 7 octets nor 21 or more. */
  predicate BadFormat(rx: seq<byte>) {
    At(rx, 0) == 0x09 && 1 <= At(rx, 1) < 21 && At(rx, 1) != 7 && |rx| >= 2 + At(rx, 1)
  }

  lemma {:induction false} CharStepFails(p: Progress<Characteristic>, call: Call, end: u16, filter: Filter, mtu: nat)
    requires p.Asking?
    ensures CharStep(p, call, end, filter, mtu).Crashed? <==> call.status == 0 && ZeroLength(0x09, call.rx)
    ensures CharStep(p, call, end, filter, mtu).Overread? <==> call.status == 0 && BadFormat(call.rx)
  {
    hide CharsOf, Taken, Last, CharRequest;
  }

  lemma {:induction false} CharRunStep(p: Progress<Characteristic>, calls: seq<Call>, end: u16, filter: Filter,
        mtu: nat)
    requires calls != []
    ensures CharRunAll(p, calls, end, filter, mtu) ==
            CharRunAll(CharStep(p, calls[0], end, filter, mtu), calls[1..], end, filter, mtu)
  {
    hide CharStep;
  }

  lemma {:induction false} CharRunNothing(p: Progress<Characteristic>, calls: seq<Call>, end: u16,
        filter: Filter, mtu: nat)
    requires calls == []
    ensures CharRunAll(p, calls, end, filter, mtu) == p
  {
  }

  /** A procedure that has ended did so at the reply at `n`, before which it was waiting and after which it is not. */
  lemma {:induction false} CharsEndAt(p: Progress<Characteristic>, calls: seq<Call>, end: u16, filter: Filter,
        mtu: nat)
    returns (n: nat)
    requires p.Asking?
    ensures n <= |calls|
    ensures forall k: nat :: k <= |calls| ==> (CharRunAll(p, calls[..k], end, filter, mtu).Asking? <==> k <= n)
    ensures CharRunAll(p, calls, end, filter, mtu).Asking? <==> n == |calls|
    ensures n < |calls| ==>
              CharRunAll(p, calls, end, filter, mtu) ==
              CharStep(CharRunAll(p, calls[..n], end, filter, mtu), calls[n], end, filter, mtu)
    ensures forall k: nat :: k < n ==>
              CharStep(CharRunAll(p, calls[..k], end, filter, mtu), calls[k], end, filter, mtu).Asking?
    decreases calls
  {
    hide CharStep, CharRunAll;
    CharRunNothing(p, calls[..0], end, filter, mtu);
    if calls == [] {
      n := 0;
      CharRunNothing(p, calls, end, filter, mtu);
    } else {
      var q, rest := CharStep(p, calls[0], end, filter, mtu), calls[1..];
      CharRunStep(p, calls, end, filter, mtu);
      forall k: nat | k < |calls|
        ensures CharRunAll(p, calls[..k + 1], end, filter, mtu) == CharRunAll(q, rest[..k], end, filter, mtu)
        ensures k < |rest| ==> calls[k + 1] == rest[k]
      {
        CharRunStep(p, calls[..k + 1], end, filter, mtu);
        assert calls[..k + 1][1..] == rest[..k];
      }
      if q.Asking? {
        var m := CharsEndAt(q, rest, end, filter, mtu);
        n := m + 1;
        forall k: nat | k <= |calls| ensures CharRunAll(p, calls[..k], end, filter, mtu).Asking? <==> k <= n {
          if k > 0 {
            var j := k - 1;
            assert CharRunAll(p, calls[..j + 1], end, filter, mtu) == CharRunAll(q, rest[..j], end, filter, mtu);
          }
        }
        forall k: nat | k < n ensures CharStep(CharRunAll(p, calls[..k], end, filter, mtu), calls[k], end, filter,
            mtu).Asking? {
          if k > 0 {
            var j := k - 1;
            assert CharRunAll(p, calls[..j + 1], end, filter, mtu) == CharRunAll(q, rest[..j], end, filter, mtu);
          }
        }
      } else {
        n := 0;
        forall k: nat | k <= |rest| ensures CharRunAll(q, rest[..k], end, filter, mtu) == q {
          CharsStayDone(q, rest[..k], end, filter, mtu);
        }
        CharsStayDone(q, rest, end, filter, mtu);
        forall k: nat | k <= |calls| ensures CharRunAll(p, calls[..k], end, filter, mtu).Asking? <==> k <= n {
          if k > 0 {
            var j := k - 1;
            assert CharRunAll(p, calls[..j + 1], end, filter, mtu) == CharRunAll(q, rest[..j], end, filter, mtu);
          }
        }
      }
    }
  }

  /**
   Against any peer at all: a successful reply ends in a division by zero if and
   only if its element length reads 0, and in a read behind an allocation if and
   only if it has an element of neither 7 octets nor 21 or more, and the
   procedure is waiting for it.
   */
  lemma {:induction false} CharsFailExactly(
      p: Progress<Characteristic>, calls: seq<Call>, end: u16, filter: Filter, mtu: nat)
    requires p.Asking?
    ensures CharRunAll(p, calls, end, filter, mtu).Crashed? <==>
            exists i :: 0 <= i < |calls| && CharRunAll(p, calls[..i], end, filter, mtu).Asking?
                        && calls[i].status == 0 && ZeroLength(0x09, calls[i].rx)
    ensures CharRunAll(p, calls, end, filter, mtu).Overread? <==>
            exists i :: 0 <= i < |calls| && CharRunAll(p, calls[..i], end, filter, mtu).Asking?
                        && calls[i].status == 0 && BadFormat(calls[i].rx)
  {
    hide CharStep, CharRunAll, ZeroLength, BadFormat;
    var n := CharsEndAt(p, calls, end, filter, mtu);
    forall i: nat | i < |calls| && CharRunAll(p, calls[..i], end, filter, mtu).Asking?
      ensures var q := CharStep(CharRunAll(p, calls[..i], end, filter, mtu), calls[i], end, filter, mtu);
              && (q.Crashed? <==> calls[i].status == 0 && ZeroLength(0x09, calls[i].rx))
              && (q.Overread? <==> calls[i].status == 0 && BadFormat(calls[i].rx))
    {
      CharStepFails(CharRunAll(p, calls[..i], end, filter, mtu), calls[i], end, filter, mtu);
    }
    if n < |calls| { assert CharRunAll(p, calls[..n], end, filter, mtu).Asking?; }
  }

  /**
   Against any peer and any failure of the transport: a waiting procedure that
   is given an error tells its user exactly what it has found, with no error if
   the error was 0x0A, and with that error otherwise; a PDU of another kind is
   told as 0x80.
   */
  lemma {:induction false} CharsTellErrors(
      p: Progress<Characteristic>, calls: seq<Call>, end: u16, filter: Filter, mtu: nat, i: nat)
    requires p.Asking? && i < |calls| && CharRunAll(p, calls[..i], end, filter, mtu).Asking?
    ensures var found, status := CharRunAll(p, calls[..i], end, filter, mtu).found, calls[i].status;
            var q := CharRunAll(p, calls, end, filter, mtu);
            && (status != 0 ==> q == Told(found, if status == 0x0A then 0 else status))
            && (status == 0 && At(calls[i].rx, 0) != 0x09 ==> q == Told(found, 0x80))
  {
    var n := CharsEndAt(p, calls, end, filter, mtu);
    CharStepTells(CharRunAll(p, calls[..i], end, filter, mtu), calls[i], end, filter, mtu);
    hide CharStep, CharRunAll;
  }

  lemma {:induction false} CharStepTells(p: Progress<Characteristic>, call: Call, end: u16, filter: Filter, mtu: nat)
    requires p.Asking?
    ensures var q := CharStep(p, call, end, filter, mtu);
            && (call.status != 0 ==> q == Told(p.found, if call.status == 0x0A then 0 else call.status))
            && (call.status == 0 && At(call.rx, 0) != 0x09 ==> q == Told(p.found, 0x80))
  {
    hide Split, CharsOf, Taken, Last, CharRequest;
  }

  /** The request on the wire: opcode, first and last handle, and the type 0x2803. */
  lemma {:induction false} CharRequestIs(start: u16, end: u16, mtu: nat)
    requires mtu >= 23
    ensures CharRequest(start, end, mtu) == [0x08, start % 0x100, start / 0x100, end % 0x100, end / 0x100, 0x03, 0x28]
  {
    RequestLayouts(0x08, start, end, 0x2803, seq(16, _ => 0), [], mtu);
    hide EncRangeReq, EncFindByTypeReq;
  }

  /** What a server stores for a characteristic: handle, properties, value handle and UUID. */
  lemma {:induction false} DeclarationLayout(d: Declaration)
    ensures DeclarationOctets(d) ==
            [d.handle % 0x100, d.handle / 0x100, d.properties, d.valueHandle % 0x100, d.valueHandle / 0x100] +
            if d.uuid.Uuid16? then [d.uuid.word % 0x100, d.uuid.word / 0x100] else d.uuid.octets
  {
    assert PutU16(d.handle) + [d.properties] + PutU16(d.valueHandle) ==
        [d.handle % 0x100, d.handle / 0x100, d.properties, d.valueHandle % 0x100, d.valueHandle / 0x100];
  }

  lemma {:induction false} CharsStayDone(q: Progress<Characteristic>, calls: seq<Call>, end: u16,
        filter: Filter, mtu: nat)
    requires !q.Asking?
    ensures CharRunAll(q, calls, end, filter, mtu) == q
    decreases calls
  {
    if calls != [] { CharsStayDone(q, calls[1..], end, filter, mtu); }
  }

  lemma {:induction false} RefusedAtOnce(
      db: seq<Declaration>, calls: seq<Call>, start: u16, end: u16, filter: Filter, mtu: nat)
    requires BadBounds(start, end) && mtu >= 23 && calls != []
    requires CharAnswered(db, Asking([], CharRequest(start, end, mtu)), calls, end, filter, mtu)
    ensures |calls| == 1
    ensures CharRunAll(Asking([], CharRequest(start, end, mtu)), calls, end, filter, mtu) ==
            Told([], ATT_ECODE_INVALID_HANDLE)
  {
    var p, call := Asking([], CharRequest(start, end, mtu)), calls[0];
    CharAnswerFor(db, start, end, call.rx, mtu);
    assert StatusOf(0x09, call.rx) == ATT_ECODE_INVALID_HANDLE;
    hide CharAnswer, CharRequest, StatusOf, EncError;
    assert CharStep(p, call, end, filter, mtu).Told?;
    assert calls[1..] == [];
  }

  /** The responses enc_read_by_type_resp builds from a run of one width are legal, so legal servers exist. */
  lemma {:induction false} EncoderAnswersLegally(left: seq<Declaration>, n: nat, elen: nat, start: u16, end: u16,
        mtu: nat)
    requires CharRun(left, n, elen, []) && mtu >= 23 && !BadBounds(start, end)
    ensures CharReply(left, start, end, EncTypeResp(DeclarationsOctets(left[..n]), elen, mtu), mtu)
  {
    var list := DeclarationsOctets(left[..n]);
    assert Min(mtu - 2, elen) == elen;
    assert Clip(list, elen) == list by {
      forall i | 0 <= i < |list| ensures Clip(list, elen)[i] == list[i] { assert |list[i]| == elen; }
    }
    var fit := Fitting(list, elen, mtu - 2);
    var m := |fit|;
    assert list != [] && m > 0;
    assert fit == list[..m] == DeclarationsOctets(left[..m]) by { assert left[..n][..m] == left[..m]; }
    assert Flat(fit) + [] == Flat(fit);
    assert CharRun(left, m, elen, []) && EncTypeResp(list, elen, mtu) == CharPdu(left, m, elen, []);
  }

  // ----- the record of the procedure, updated in place -----

  /** struct discover_char. */
  class DiscoverChar {
    const end: u16
    const filter: Filter
    var characteristics: seq<Characteristic>

    constructor (end: u16, filter: Filter)
      ensures this.end == end && this.filter == filter && characteristics == []
    {
      this.end, this.filter, characteristics := end, filter, [];
    }

    /** char_discovered_cb. */
    method OnList(status: byte, rx: seq<byte>, mtu: nat) returns (next: Progress<Characteristic>)
      modifies this`characteristics
      ensures next == CharCallback(old(characteristics), status, rx, end, filter, mtu) && characteristics == next.found
    {
      hide Taken, Looked, Split, CharRequest, CharOf;
      if status != 0 { return Told(characteristics, ErrorOf(status)); }
      if At(rx, 0) != 0x09 { return Told(characteristics, ATT_ECODE_IO); }
      if At(rx, 1) == 0 { return Crashed(characteristics); }
      var list := Split(rx[2..], rx[1]);
      var last := Collect(list);
      if last.None? { return Overread(characteristics); }
      if last.value != 0 && last.value + 1 < end {
        return Asking(characteristics, CharRequest(last.value + 1, end, mtu));
      }
      return Told(characteristics, 0);
    }

    /**
     The loop over elements of one length, up to the first unwanted one; None if
     it reads behind the first of them.
     */
    method Collect(list: seq<seq<byte>>) returns (seen: Option<u16>)
      modifies this`characteristics
      ensures var cs := CharsOf(list);
              if Formatted(list)
              then characteristics == old(characteristics) + cs[..Taken(cs, filter)] && seen == Some(Last(cs, filter))
              else characteristics == old(characteristics) && seen == None
    {
      hide CharsOf, Taken, Last;
      if list != [] && |list[0]| != 7 && |list[0]| < 21 { return None; }
      var last := Scan(list);
      seen := Some(last);
    }

    method Scan(list: seq<seq<byte>>) returns (last: u16)
      modifies this`characteristics
      ensures var cs := CharsOf(list);
              characteristics == old(characteristics) + cs[..Taken(cs, filter)] && last == Last(cs, filter)
    {
      hide CharOf;
      ghost var cs := CharsOf(list);
      last := 0;
      var i := 0;
      while i < |list|
        invariant 0 <= i <= Taken(cs, filter)
        invariant characteristics == old(characteristics) + cs[..i] && last == (if i == 0 then 0 else cs[i - 1].handle)
      {
        var c := CharOf(list[i]);
        last := c.handle;
        if !Wanted(c, filter) { break; }
        characteristics := characteristics + [c];
        i := i + 1;
      }
    }
  }
}
