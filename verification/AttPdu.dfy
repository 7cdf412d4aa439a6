/**
 The ATT PDU codec (att.c, att.h) on octet strings: what each encoder writes at
 the start of the caller's buffer (nothing when it refuses) and what each
 decoder reads back (section 3.4 of Bluetooth Core Specification Vol 3 Part F).
 Encoders that differ only in their opcode share one function.
 */
module AttPdu {
  import opened Octets

  type Octets16 = b: seq<byte> | |b| == 16 witness seq(16, _ => 0)

  /**
   bt_uuid_t; 128-bit values in the order in which they are transmitted.  Of a
   32-bit UUID the code only ever uses the whole 16 octets of the union.
   */
  datatype Uuid = Uuid16(word: u16) | Uuid32(octets: Octets16) | Uuid128(octets: Octets16)

  /** The Bluetooth base UUID. */
  const BASE_UUID: Octets16 :=
    [0xFB, 0x34, 0x9B, 0x5F, 0x80, 0x00, 0x00, 0x80, 0x00, 0x10, 0x00, 0x00, 0x00, 0x00, 0x00, 0x00]

  /** bt_uuid_to_uuid128: the value is copied over the base at its offset. */
  function Widen(word: u16): Octets16 {
    BASE_UUID[..12] + PutU16(word) + BASE_UUID[14..]
  }

  /** att_put_uuid, and the value encode_discover_primary searches for. */
  function UuidOctets(u: Uuid): seq<byte> {
    match u
    case Uuid16(word) => PutU16(word)
    case Uuid32(octets) => octets
    case Uuid128(octets) => octets
  }

  /** n octets of a zero-filled buffer holding pdu, from position i. */
  function Window(pdu: seq<byte>, i: nat, n: nat): (b: seq<byte>)
    ensures |b| == n && (i + n <= |pdu| ==> b == pdu[i..i + n])
    decreases n
  {
    if n == 0 then [] else [At(pdu, i)] + Window(pdu, i + 1, n - 1)
  }

  // ----- requests -----

  /** enc_read_by_grp_req, enc_read_by_type_req. */
  function EncRangeReq(op: byte, start: u16, end: u16, uuid: Uuid, len: nat): seq<byte> {
    if uuid.Uuid32? || len < 5 + |UuidOctets(uuid)| then [] else [op] + PutU16(start) + PutU16(end) + UuidOctets(uuid)
  }

  /** dec_read_by_grp_req, dec_read_by_type_req: only the length tells the width of the UUID. */
  function DecRangeReq(op: byte, pdu: seq<byte>): Option<(u16, u16, Uuid)> {
    if |pdu| < 7 || pdu[0] != op then None
    else Some((GetU16(pdu[1..]), GetU16(pdu[3..]),
               if |pdu| == 7 then Uuid16(GetU16(pdu[5..])) else Uuid128(Window(pdu, 5, 16))))
  }

  lemma RangeReqRoundTrip(op: byte, start: u16, end: u16, uuid: Uuid, len: nat)
    ensures DecRangeReq(op, EncRangeReq(op, start, end, uuid, len)) ==
            if uuid.Uuid32? || len < 5 + |UuidOctets(uuid)| then None else Some((start, end, uuid))
    ensures |EncRangeReq(op, start, end, uuid, len)| <= len
  {
    var pdu := [op] + PutU16(start) + PutU16(end) + UuidOctets(uuid);
    assert pdu[1..3] == PutU16(start) && pdu[3..5] == PutU16(end) && pdu[5..] == UuidOctets(uuid);
    if uuid.Uuid16? { assert pdu[5..7] == PutU16(uuid.word); }
    if uuid.Uuid128? { assert pdu[5..21] == uuid.octets; }
  }

  /** enc_find_by_type_req: the value is cut to what fits. */
  function EncFindByTypeReq(start: u16, end: u16, uuid: Uuid, value: seq<byte>, len: nat): seq<byte> {
    if !uuid.Uuid16? || len < 7 then []
    else [0x06] + PutU16(start) + PutU16(end) + PutU16(uuid.word) + value[..Min(|value|, len - 7)]
  }

  function DecFindByTypeReq(pdu: seq<byte>): Option<(u16, u16, Uuid, seq<byte>)> {
    if |pdu| < 7 || pdu[0] != 0x06 then None
    else Some((GetU16(pdu[1..]), GetU16(pdu[3..]), Uuid16(GetU16(pdu[5..])), pdu[7..]))
  }

  lemma FindByTypeReqRoundTrip(start: u16, end: u16, uuid: Uuid, value: seq<byte>, len: nat)
    ensures DecFindByTypeReq(EncFindByTypeReq(start, end, uuid, value, len)) ==
            if !uuid.Uuid16? || len < 7 then None else Some((start, end, uuid, value[..Min(|value|, len - 7)]))
    ensures |EncFindByTypeReq(start, end, uuid, value, len)| <= len
  {
    if uuid.Uuid16? && len >= 7 {
      var pdu := EncFindByTypeReq(start, end, uuid, value, len);
      assert pdu[1..3] == PutU16(start) && pdu[3..5] == PutU16(end) && pdu[5..7] == PutU16(uuid.word);
      assert pdu[7..] == value[..Min(|value|, len - 7)];
    }
  }

  /** enc_write_cmd, enc_write_req: the value is cut to what fits. */
  function EncWrite(op: byte, handle: u16, value: seq<byte>, len: nat): seq<byte> {
    if len < 3 then [] else [op] + PutU16(handle) + value[..Min(|value|, len - 3)]
  }

  /** enc_notification, enc_indication: refused unless the whole value fits. */
  function EncNotice(op: byte, handle: u16, value: seq<byte>, len: nat): seq<byte> {
    if len < |value| + 3 then [] else [op] + PutU16(handle) + value
  }

  /** dec_write_cmd, dec_write_req, dec_indication with room for the whole value. */
  function DecWrite(op: byte, pdu: seq<byte>): Option<(u16, seq<byte>)> {
    if |pdu| < 3 || pdu[0] != op then None else Some((GetU16(pdu[1..]), pdu[3..]))
  }

  lemma WriteRoundTrip(op: byte, handle: u16, value: seq<byte>, len: nat)
    ensures DecWrite(op, EncWrite(op, handle, value, len)) ==
            if len < 3 then None else Some((handle, value[..Min(|value|, len - 3)]))
    ensures DecWrite(op, EncNotice(op, handle, value, len)) == if len < |value| + 3 then None else Some((handle, value))
    ensures |EncWrite(op, handle, value, len)| <= len && |EncNotice(op, handle, value, len)| <= len
  {
    if len >= 3 {
      var pdu := EncWrite(op, handle, value, len);
      assert pdu[1..3] == PutU16(handle) && pdu[3..] == value[..Min(|value|, len - 3)];
      var all := [op] + PutU16(handle) + value;
      assert all[1..3] == PutU16(handle) && all[3..] == value;
    }
  }

  /** enc_read_req, enc_mtu_req, enc_mtu_resp. */
  function EncWord(op: byte, word: u16, len: nat): seq<byte> {
    if len < 3 then [] else [op] + PutU16(word)
  }

  function DecWord(op: byte, pdu: seq<byte>): Option<u16> {
    if |pdu| < 3 || pdu[0] != op then None else Some(GetU16(pdu[1..]))
  }

  /** enc_read_blob_req, enc_find_info_req. */
  function EncWords(op: byte, first: u16, second: u16, len: nat): seq<byte> {
    if len < 5 then [] else [op] + PutU16(first) + PutU16(second)
  }

  function DecWords(op: byte, pdu: seq<byte>): Option<(u16, u16)> {
    if |pdu| < 5 || pdu[0] != op then None else Some((GetU16(pdu[1..]), GetU16(pdu[3..])))
  }

  lemma WordsRoundTrip(op: byte, first: u16, second: u16, len: nat)
    ensures DecWord(op, EncWord(op, first, len)) == if len < 3 then None else Some(first)
    ensures DecWords(op, EncWords(op, first, second, len)) == if len < 5 then None else Some((first, second))
    ensures |EncWord(op, first, len)| <= len && |EncWords(op, first, second, len)| <= len
  {
    var pdu := [op] + PutU16(first);
    assert pdu[1..] == PutU16(first);
    var both := [op] + PutU16(first) + PutU16(second);
    assert both[1..3] == PutU16(first) && both[3..] == PutU16(second);
  }

  /** enc_error_resp. */
  function EncError(op: byte, handle: u16, status: byte, len: nat): seq<byte> {
    if len < 5 then [] else [0x01, op] + PutU16(handle) + [status]
  }

  // ----- values -----

  /** enc_read_resp: as much of the value as fits behind the opcode. */
  function EncReadResp(value: seq<byte>, len: nat): seq<byte>
    requires len >= 1
  {
    [0x0B] + value[..Min(|value|, len - 1)]
  }

  /** enc_read_blob_resp: the same from an offset. */
  function EncReadBlobResp(value: seq<byte>, offset: nat, len: nat): seq<byte>
    requires len >= 1 && offset <= |value|
  {
    [0x0D] + value[offset..offset + Min(|value| - offset, len - 1)]
  }

  function DecReadResp(pdu: seq<byte>): Option<seq<byte>> {
    if pdu == [] || pdu[0] != 0x0B then None else Some(pdu[1..])
  }

  /**
   A read response starts the value, and a blob response for any offset
   continues what precedes that offset, without gap or overlap.
   */
  lemma ReadRespRoundTrip(value: seq<byte>, offset: nat, len: nat)
    requires len >= 1 && offset <= |value|
    ensures DecReadResp(EncReadResp(value, len)) == Some(value[..Min(|value|, len - 1)])
    ensures value[..offset] + EncReadBlobResp(value, offset, len)[1..] == value[..Min(|value|, offset + len - 1)]
    ensures |EncReadResp(value, len)| <= len && |EncReadBlobResp(value, offset, len)| <= len
  {
    assert EncReadResp(value, len)[1..] == value[..Min(|value|, len - 1)];
    var n := Min(|value| - offset, len - 1);
    assert EncReadBlobResp(value, offset, len)[1..] == value[offset..offset + n];
    assert value[..offset] + value[offset..offset + n] == value[..offset + n];
  }

  // ----- lists -----

  function Flat(list: seq<seq<byte>>): seq<byte> {
    if list == [] then [] else list[0] + Flat(list[1..])
  }

  predicate Uniform(list: seq<seq<byte>>, elen: nat) {
    forall i :: 0 <= i < |list| ==> |list[i]| == elen
  }

  /** The elements that fit into `room` octets, one after the other. */
  function Fitting(list: seq<seq<byte>>, elen: nat, room: nat): (p: seq<seq<byte>>)
    ensures p <= list
  {
    if list == [] || room < elen then [] else [list[0]] + Fitting(list[1..], elen, room - elen)
  }

  /** The element-by-element reading of a payload. */
  function Split(payload: seq<byte>, elen: nat): (list: seq<seq<byte>>)
    requires elen > 0
    ensures Uniform(list, elen)
    decreases |payload|
  {
    if |payload| < elen then [] else [payload[..elen]] + Split(payload[elen..], elen)
  }

  function Clip(list: seq<seq<byte>>, n: nat): (clipped: seq<seq<byte>>)
    ensures |clipped| == |list| && forall i :: 0 <= i < |list| ==> clipped[i] == list[i][..Min(n, |list[i]|)]
  {
    seq(|list|, i requires 0 <= i < |list| => list[i][..Min(n, |list[i]|)])
  }

  lemma {:induction false} FlatAppend(list: seq<seq<byte>>, x: seq<byte>)
    ensures Flat(list + [x]) == Flat(list) + x
  {
    if list == [] {
      assert [x][1..] == [] && list + [x] == [x];
    } else {
      FlatAppend(list[1..], x);
      assert (list + [x])[1..] == list[1..] + [x];
    }
  }

  lemma {:induction false} FlatLength(list: seq<seq<byte>>, elen: nat)
    requires Uniform(list, elen)
    ensures |Flat(list)| == |list| * elen
  {
    if list != [] { FlatLength(list[1..], elen); }
  }

  /** Splitting undoes flattening. */
  lemma {:induction false} SplitFlat(list: seq<seq<byte>>, elen: nat)
    requires Uniform(list, elen) && elen > 0
    ensures Split(Flat(list), elen) == list
  {
    if list != [] {
      SplitFlat(list[1..], elen);
      assert Flat(list)[..elen] == list[0] && Flat(list)[elen..] == Flat(list[1..]);
    }
  }

  lemma {:induction false} SplitLength(payload: seq<byte>, elen: nat)
    requires elen > 0
    ensures |Split(payload, elen)| == |payload| / elen
  {
    if |payload| >= elen {
      SplitLength(payload[elen..], elen);
      QuotientOfRest(|payload|, elen);
    } else {
      QuotientOfSmall(|payload|, elen);
    }
  }

  lemma QuotientOfRest(n: nat, d: nat)
    requires 0 < d <= n
    ensures n / d == (n - d) / d + 1
  {
    var q, r, q', r' := n / d, n % d, (n - d) / d, (n - d) % d;
    assert n == d * q + r && n - d == d * q' + r';
    assert d * (q - (q' + 1)) == r' - r by {
      assert d * (q - (q' + 1)) == d * q - d * q' - d;
    }
    QuotientIsUnique(d, q - (q' + 1), r' - r);
  }

  lemma QuotientIsUnique(d: int, k: int, r: int)
    requires d * k == r && -d < r < d
    ensures k == 0
  {
    assert k >= 1 ==> d * k >= d;
    assert k <= -1 ==> d * k <= -d;
  }

  lemma QuotientOfSmall(n: nat, d: nat)
    requires n < d
    ensures n / d == 0
  {
  }

  /** Fitting is the longest prefix whose elements fit. */
  lemma {:induction false} FittingIsMaximal(list: seq<seq<byte>>, elen: nat, room: nat)
    ensures var p := Fitting(list, elen, room);
            p <= list && |p| * elen <= room && (p == list || (|p| + 1) * elen > room)
  {
    if list != [] && room >= elen {
      FittingIsMaximal(list[1..], elen, room - elen);
      var q := Fitting(list[1..], elen, room - elen);
      assert (|q| + 1) * elen == |q| * elen + elen && (|q| + 2) * elen == (|q| + 1) * elen + elen;
    }
  }

  /** The payload of the list responses: an opcode, a tag, and the elements that fit. */
  function Listed(op: byte, tag: byte, list: seq<seq<byte>>, elen: nat, len: nat): seq<byte>
    requires len >= 2
  {
    [op, tag] + Flat(Fitting(list, elen, len - 2))
  }

  /** enc_read_by_grp_resp (op 0x11); enc_find_info_resp is the same with its format as tag. */
  function EncGroupResp(list: seq<seq<byte>>, elen: nat, len: nat): seq<byte> {
    if len < elen + 2 then [] else Listed(0x11, elen % 0x100, list, elen, len)
  }

  function EncFindInfoResp(format: byte, list: seq<seq<byte>>, elen: nat, len: nat): seq<byte> {
    if len < elen + 2 then [] else Listed(0x05, format, list, elen, len)
  }

  /** enc_read_by_type_resp: elements are clipped when even one does not fit. */
  function EncTypeResp(list: seq<seq<byte>>, elen: nat, len: nat): seq<byte>
    requires len >= 2
  {
    var l := Min(len - 2, elen);
    Listed(0x09, l % 0x100, Clip(list, l), l, len)
  }

  /** What a list decoder does; it divides by the element length it is sent. */
  datatype Decoded = DivisionByZero | OtherOpcode | Elements(list: seq<seq<byte>>)

  /** dec_read_by_grp_resp (0x11), dec_read_by_type_resp (0x09) on the zero-filled receive buffer. */
  function DecListResp(op: byte, pdu: seq<byte>): Decoded {
    if At(pdu, 0) != op then OtherOpcode
    else if At(pdu, 1) == 0 then DivisionByZero
    else Elements(Split(pdu[2..], pdu[1]))
  }

  /** A response whose element length reads 0; one that ends after its opcode is one. */
  predicate ZeroLength(op: byte, pdu: seq<byte>) {
    At(pdu, 0) == op && At(pdu, 1) == 0
  }

  /** dec_find_info_resp: the element length follows from the format. */
  function FormatLength(format: byte): nat {
    if format == 0x01 then 4 else if format == 0x02 then 18 else 2
  }

  function DecFindInfoResp(pdu: seq<byte>): Option<(byte, seq<seq<byte>>)> {
    if At(pdu, 0) != 0x05 then None else Some((At(pdu, 1), Split(pdu[Min(2, |pdu|)..], FormatLength(At(pdu, 1)))))
  }

  lemma {:induction false} ListedSplits(op: byte, tag: byte, list: seq<seq<byte>>, elen: nat, len: nat)
    requires Uniform(list, elen) && elen > 0 && len >= 2
    ensures var pdu := Listed(op, tag, list, elen, len);
            pdu[0] == op && pdu[1] == tag && Split(pdu[2..], elen) == Fitting(list, elen, len - 2) && |pdu| <= len
  {
    var p := Fitting(list, elen, len - 2);
    FittingIsMaximal(list, elen, len - 2);
    FlatLength(p, elen);
    SplitFlat(p, elen);
    assert Listed(op, tag, list, elen, len)[2..] == Flat(p);
  }

  /**
   When decoding gives back what was encoded: the element length is not cut by
   its octet, or there is nothing to cut.
   */
  predicate Faithful(elen: nat, list: seq<seq<byte>>) {
    1 <= elen <= 255 || (list == [] && elen % 0x100 != 0)
  }

  /** The element length is sent in one octet: what the decoder makes of a list. */
  lemma {:induction false} ListedDecodes(op: byte, list: seq<seq<byte>>, elen: nat, len: nat)
    requires Uniform(list, elen) && len >= elen + 2
    ensures var pdu := Listed(op, elen % 0x100, list, elen, len);
            && 2 <= |pdu| <= len
            && (DecListResp(op, pdu) == Elements(Fitting(list, elen, len - 2)) <==> Faithful(elen, list))
            && (DecListResp(op, pdu) == DivisionByZero <==> elen % 0x100 == 0)
  {
    var p := Fitting(list, elen, len - 2);
    FittingIsMaximal(list, elen, len - 2);
    FlatLength(p, elen);
    var pdu := Listed(op, elen % 0x100, list, elen, len);
    assert |pdu| == 2 + |p| * elen && pdu[0] == op && pdu[1] == elen % 0x100;
    if elen % 0x100 != 0 {
      ListedSplits(op, elen % 0x100, list, elen, len);
      var d := Split(pdu[2..], elen % 0x100);
      assert list != [] ==> p[0] == list[0];
      assert d != [] ==> |d[0]| == elen % 0x100;
    }
  }

  /**
   Decoding an encoded group response gives the longest prefix that fits if and
   only if the element length is not cut by the octet it is sent in; and the
   receiver divides by zero if and only if it is a multiple of 256.
   */
  lemma {:induction false} GroupRespRoundTrip(list: seq<seq<byte>>, elen: u16, len: u16)
    requires Uniform(list, elen)
    ensures var pdu := EncGroupResp(list, elen, len);
            if len < elen + 2 then pdu == []
            else && 2 <= |pdu| <= len
                 && (DecListResp(0x11, pdu) == Elements(Fitting(list, elen, len - 2)) <==> Faithful(elen, list))
                 && (DecListResp(0x11, pdu) == DivisionByZero <==> elen % 0x100 == 0)
  {
    hide Fitting, Faithful, DecListResp, Listed;
    if len >= elen + 2 { ListedDecodes(0x11, list, elen, len); }
  }

  /** The same for read-by-type responses, whose elements are clipped when not even one fits. */
  lemma {:induction false} TypeRespRoundTrip(list: seq<seq<byte>>, elen: u16, len: nat)
    requires Uniform(list, elen) && len >= 2
    ensures var pdu, l := EncTypeResp(list, elen, len), Min(len - 2, elen);
            && 2 <= |pdu| <= len
            && (DecListResp(0x09, pdu) == Elements(Fitting(Clip(list, l), l, len - 2)) <==> Faithful(l, list))
            && (DecListResp(0x09, pdu) == DivisionByZero <==> l % 0x100 == 0)
  {
    var l := Min(len - 2, elen);
    assert Uniform(Clip(list, l), l);
    assert Clip(list, l) == [] <==> list == [];
    hide Fitting, DecListResp, Listed, Clip;
    ListedDecodes(0x09, Clip(list, l), l, len);
  }

  /** Decoding an encoded find-information response gives the format and the longest prefix that fits. */
  lemma {:induction false} FindInfoRespRoundTrip(format: byte, list: seq<seq<byte>>, len: nat)
    requires Uniform(list, FormatLength(format))
    ensures var elen := FormatLength(format);
            var pdu := EncFindInfoResp(format, list, elen, len);
            if len < elen + 2 then pdu == []
            else 2 <= |pdu| <= len && DecFindInfoResp(pdu) == Some((format, Fitting(list, elen, len - 2)))
  {
    if len >= FormatLength(format) + 2 { ListedSplits(0x05, format, list, FormatLength(format), len); }
  }

  // ----- handle ranges -----

  datatype Range = Range(start: u16, end: u16)

  function RangeOctets(r: Range): seq<byte> {
    PutU16(r.start) + PutU16(r.end)
  }

  function AsOctets(ranges: seq<Range>): (list: seq<seq<byte>>)
    ensures |list| == |ranges| && Uniform(list, 4)
  {
    seq(|ranges|, i requires 0 <= i < |ranges| => RangeOctets(ranges[i]))
  }

  function AsRanges(list: seq<seq<byte>>): (ranges: seq<Range>)
    requires Uniform(list, 4)
    ensures |ranges| == |list|
  {
    seq(|list|, i requires 0 <= i < |list| => Range(GetU16(list[i]), GetU16(list[i][2..])))
  }

  /** enc_find_by_type_resp. */
  function EncRanges(ranges: seq<Range>, len: nat): seq<byte> {
    if len < 5 then [] else [0x07] + Flat(Fitting(AsOctets(ranges), 4, len - 1))
  }

  /** dec_find_by_type_resp; no ranges at all is the C null list. */
  function DecRanges(pdu: seq<byte>): seq<Range> {
    if |pdu| < 5 || pdu[0] != 0x07 then [] else AsRanges(Split(pdu[1..], 4))
  }

  lemma {:induction false} RangesOfOctets(ranges: seq<Range>)
    ensures AsRanges(AsOctets(ranges)) == ranges
  {
    forall i | 0 <= i < |ranges| ensures AsRanges(AsOctets(ranges))[i] == ranges[i] {
      assert RangeOctets(ranges[i])[2..] == PutU16(ranges[i].end);
    }
  }

  /**
   Decoding an encoded find-by-type response gives the ranges that fit, a prefix
   with at most (len - 1) / 4 elements.
   */
  lemma {:induction false} RangesRoundTrip(ranges: seq<Range>, len: u16)
    ensures |EncRanges(ranges, len)| <= len
    ensures len >= 5 ==> DecRanges(EncRanges(ranges, len)) == ranges[..Min(|ranges|, (len - 1) / 4)]
  {
    if len >= 5 {
      var list := AsOctets(ranges);
      var p := Fitting(list, 4, len - 1);
      FittingIsMaximal(list, 4, len - 1);
      FlatLength(p, 4);
      SplitFlat(p, 4);
      var n := |p|;
      assert n == Min(|ranges|, (len - 1) / 4);
      assert p == AsOctets(ranges[..n]);
      RangesOfOctets(ranges[..n]);
      assert EncRanges(ranges, len)[1..] == Flat(p);
    }
  }

  // ----- the octets themselves (sections 3.4.1 to 3.4.7 of Bluetooth Core Specification Vol 3 Part F) -----

  /** The requests, octet by octet; words go least significant octet first. */
  lemma {:induction false} RequestLayouts(
      op: byte, a: u16, b: u16, word: u16, octets: Octets16, value: seq<byte>, len: nat)
    requires len >= 21
    ensures var head := [op, a % 0x100, a / 0x100, b % 0x100, b / 0x100];
            && EncRangeReq(op, a, b, Uuid16(word), len) == head + [word % 0x100, word / 0x100]
            && EncRangeReq(op, a, b, Uuid128(octets), len) == head + octets
            && EncWords(op, a, b, len) == head
            && EncFindByTypeReq(a, b, Uuid16(word), value, len) ==
               head[0 := 0x06] + [word % 0x100, word / 0x100] + value[..Min(|value|, len - 7)]
    ensures EncWord(op, a, len) == [op, a % 0x100, a / 0x100]
    ensures EncWrite(op, a, value, len) == [op, a % 0x100, a / 0x100] + value[..Min(|value|, len - 3)]
    ensures |value| + 3 <= len ==> EncNotice(op, a, value, len) == [op, a % 0x100, a / 0x100] + value
  {
  }

  /** The responses: opcode, then what describes the elements, then these. */
  lemma {:induction false} ResponseLayouts(op: byte, handle: u16, status: byte, value: seq<byte>, offset: nat, len: nat)
    requires len >= 5 && offset <= |value|
    ensures EncError(op, handle, status, len) == [0x01, op, handle % 0x100, handle / 0x100, status]
    ensures EncReadResp(value, len)[0] == 0x0B && EncReadBlobResp(value, offset, len)[0] == 0x0D
  {
  }

  lemma {:induction false} ListLayouts(list: seq<seq<byte>>, elen: nat, format: byte, len: nat)
    requires len >= elen + 2
    ensures EncGroupResp(list, elen, len) == [0x11, elen % 0x100] + Flat(Fitting(list, elen, len - 2))
    ensures EncFindInfoResp(format, list, elen, len) == [0x05, format] + Flat(Fitting(list, elen, len - 2))
    ensures Uniform(list, elen) ==>
              EncTypeResp(list, elen, len) == [0x09, elen % 0x100] + Flat(Fitting(list, elen, len - 2))
  {
    hide Flat, Fitting;
    if Uniform(list, elen) {
      assert Min(len - 2, elen) == elen;
      forall i | 0 <= i < |list| ensures Clip(list, elen)[i] == list[i] { assert |list[i]| == elen; }
      assert Clip(list, elen) == list;
    }
  }

  /** A range is its start and its end. */
  lemma {:induction false} RangeLayout(ranges: seq<Range>, len: nat)
    requires len >= 5
    ensures EncRanges(ranges, len)[0] == 0x07
    ensures ranges != [] ==>
              var r := ranges[0];
              |EncRanges(ranges, len)| >= 5 && EncRanges(ranges, len)[1..5] ==
              [r.start % 0x100, r.start / 0x100, r.end % 0x100, r.end / 0x100]
  {
    if ranges != [] {
      var list := AsOctets(ranges);
      assert list[0] == RangeOctets(ranges[0]) && |list[0]| == 4;
      assert Flat(Fitting(list, 4, len - 1))[..4] == list[0];
    }
  }

  /** The two formats of a find-information response carry a handle with a 16-bit and with a 128-bit UUID. */
  lemma {:induction false} FormatLengths()
    ensures FormatLength(0x01) == 2 + 2 && FormatLength(0x02) == 2 + 16
  {
  }
}
