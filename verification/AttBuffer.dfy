/** The encoders and list decoders of att.c as they work on the caller's buffer. */
module AttBuffer {
  import opened Octets
  import opened AttPdu

  /** A buffer whose first octets have been overwritten with `out`. */
  function Stored(buffer: seq<byte>, out: seq<byte>): seq<byte>
    requires |out| <= |buffer|
  {
    out + buffer[|out|..]
  }

  /** memcpy. */
  method Copy(dst: array<byte>, at: nat, src: seq<byte>)
    requires at + |src| <= dst.Length
    modifies dst
    ensures dst[..] == old(dst[..at]) + src + old(dst[at + |src|..])
  {
    var i := 0;
    while i < |src|
      invariant 0 <= i <= |src|
      invariant forall j :: 0 <= j < dst.Length ==> dst[j] == if at <= j < at + i then src[j - at] else old(dst[j])
    {
      dst[at + i] := src[i];
      i := i + 1;
    }
    ghost var want := old(dst[..at]) + src + old(dst[at + |src|..]);
    assert |want| == dst.Length;
    assert forall j :: 0 <= j < dst.Length ==> dst[..][j] == want[j];
  }

  /** Copying just behind what is already stored stores the concatenation. */
  method Append(dst: array<byte>, ghost before: seq<byte>, ghost out: seq<byte>, at: nat, src: seq<byte>)
    requires at == |out| && |before| == dst.Length && at + |src| <= dst.Length && dst[..] == Stored(before, out)
    modifies dst
    ensures dst[..] == Stored(before, out + src)
  {
    Copy(dst, at, src);
    assert old(dst[..at]) == out && old(dst[at + |src|..]) == before[at + |src|..];
  }

  /** enc_read_by_grp_req, enc_read_by_type_req. */
  method PutRangeReq(op: byte, start: u16, end: u16, uuid: Uuid, pdu: array<byte>, len: nat) returns (n: u16)
    requires len <= pdu.Length
    modifies pdu
    ensures n == |EncRangeReq(op, start, end, uuid, len)|
    ensures pdu[..] == Stored(old(pdu[..]), EncRangeReq(op, start, end, uuid, len))
  {
    if uuid.Uuid32? || len < 5 + |UuidOctets(uuid)| { return 0; }
    ghost var b := pdu[..];
    Append(pdu, b, [], 0, [op]);
    Append(pdu, b, [op], 1, PutU16(start));
    Append(pdu, b, [op] + PutU16(start), 3, PutU16(end));
    Append(pdu, b, [op] + PutU16(start) + PutU16(end), 5, UuidOctets(uuid));
    n := 5 + |UuidOctets(uuid)|;
  }

  /** enc_find_by_type_req. */
  method PutFindByTypeReq(start: u16, end: u16, uuid: Uuid, value: seq<byte>, pdu: array<byte>, len: nat)
      returns (n: u16)
    requires len <= pdu.Length
    modifies pdu
    ensures n == |EncFindByTypeReq(start, end, uuid, value, len)| % 0x1_0000
    ensures pdu[..] == Stored(old(pdu[..]), EncFindByTypeReq(start, end, uuid, value, len))
  {
    if !uuid.Uuid16? || len < 7 { return 0; }
    var vlen := if |value| > len - 7 then len - 7 else |value|;
    ghost var b := pdu[..];
    Append(pdu, b, [], 0, [0x06]);
    Append(pdu, b, [0x06], 1, PutU16(start));
    Append(pdu, b, [0x06] + PutU16(start), 3, PutU16(end));
    Append(pdu, b, [0x06] + PutU16(start) + PutU16(end), 5, PutU16(uuid.word));
    Append(pdu, b, [0x06] + PutU16(start) + PutU16(end) + PutU16(uuid.word), 7, value[..vlen]);
    n := (7 + vlen) % 0x1_0000;
  }

  /** enc_write_cmd, enc_write_req. */
  method PutWrite(op: byte, handle: u16, value: seq<byte>, pdu: array<byte>, len: nat) returns (n: u16)
    requires len <= pdu.Length
    modifies pdu
    ensures n == |EncWrite(op, handle, value, len)| % 0x1_0000
    ensures pdu[..] == Stored(old(pdu[..]), EncWrite(op, handle, value, len))
  {
    if len < 3 { return 0; }
    var vlen := if |value| > len - 3 then len - 3 else |value|;
    ghost var b := pdu[..];
    Append(pdu, b, [], 0, [op]);
    Append(pdu, b, [op], 1, PutU16(handle));
    Append(pdu, b, [op] + PutU16(handle), 3, value[..vlen]);
    n := (3 + vlen) % 0x1_0000;
  }

  /** enc_notification, enc_indication. */
  method PutNotice(op: byte, handle: u16, value: seq<byte>, pdu: array<byte>, len: nat) returns (n: u16)
    requires len <= pdu.Length
    modifies pdu
    ensures n == |EncNotice(op, handle, value, len)| % 0x1_0000
    ensures pdu[..] == Stored(old(pdu[..]), EncNotice(op, handle, value, len))
  {
    if len < |value| + 3 { return 0; }
    ghost var b := pdu[..];
    Append(pdu, b, [], 0, [op]);
    Append(pdu, b, [op], 1, PutU16(handle));
    Append(pdu, b, [op] + PutU16(handle), 3, value);
    n := (3 + |value|) % 0x1_0000;
  }

  /** enc_read_blob_req, enc_find_info_req. */
  method PutWords(op: byte, first: u16, second: u16, pdu: array<byte>, len: nat) returns (n: u16)
    requires len <= pdu.Length
    modifies pdu
    ensures n == |EncWords(op, first, second, len)|
    ensures pdu[..] == Stored(old(pdu[..]), EncWords(op, first, second, len))
  {
    if len < 5 { return 0; }
    ghost var b := pdu[..];
    Append(pdu, b, [], 0, [op]);
    Append(pdu, b, [op], 1, PutU16(first));
    Append(pdu, b, [op] + PutU16(first), 3, PutU16(second));
    n := 5;
  }

  /** enc_read_resp; None when there is no room even for the opcode and the copy length is negative. */
  method PutReadResp(value: seq<byte>, pdu: array<byte>, len: nat) returns (n: Option<u16>)
    requires len <= pdu.Length
    modifies pdu
    ensures if len == 0 then n == None && pdu[..] == old(pdu[..])
            else n == Some(|EncReadResp(value, len)| % 0x1_0000)
                 && pdu[..] == Stored(old(pdu[..]), EncReadResp(value, len))
  {
    if len == 0 { return None; }
    var vlen := if |value| > len - 1 then len - 1 else |value|;
    ghost var b := pdu[..];
    hide Stored;
    StoredNothing(b);
    Append(pdu, b, [], 0, [0x0B]);
    assert [] + [0x0B] == [0x0B];
    Append(pdu, b, [0x0B], 1, value[..vlen]);
    n := Some((1 + vlen) % 0x1_0000);
  }

  /**
   enc_read_blob_resp; None when the copy length is negative, because of the
   buffer or of an offset behind the value.
   */
  method PutReadBlobResp(value: seq<byte>, offset: u16, pdu: array<byte>, len: nat) returns (n: Option<u16>)
    requires len <= pdu.Length
    modifies pdu
    ensures if len == 0 || offset > |value| then n == None && pdu[..] == old(pdu[..])
            else n == Some(|EncReadBlobResp(value, offset, len)| % 0x1_0000)
                 && pdu[..] == Stored(old(pdu[..]), EncReadBlobResp(value, offset, len))
  {
    var vlen := |value| - offset;
    if vlen > len - 1 { vlen := len - 1; }
    if vlen < 0 { return None; }
    ghost var b := pdu[..];
    hide Stored;
    StoredNothing(b);
    var chunk := value[offset..offset + vlen];
    assert EncReadBlobResp(value, offset, len) == [0x0D] + chunk;
    hide EncReadBlobResp;
    Append(pdu, b, [], 0, [0x0D]);
    assert [] + [0x0D] == [0x0D];
    Append(pdu, b, [0x0D], 1, chunk);
    n := Some((1 + vlen) % 0x1_0000);
  }

  lemma {:induction false} StoredNothing(buffer: seq<byte>)
    ensures buffer == Stored(buffer, [])
  {
  }

  /** The common loop of the list encoders: elements are copied behind `h` octets while they fit. */
  method PutElements(list: seq<seq<byte>>, elen: nat, pdu: array<byte>, len: nat, h: nat, ghost before: seq<byte>,
        ghost head: seq<byte>)
    returns (w: nat)
    requires Uniform(list, elen) && |head| == h <= len <= pdu.Length == |before| && pdu[..] == Stored(before, head)
    modifies pdu
    ensures w == h + |Flat(Fitting(list, elen, len - h))| <= len
    ensures pdu[..] == Stored(before, head + Flat(Fitting(list, elen, len - h)))
  {
    hide Flat, Fitting, Stored, Uniform;
    var i := 0;
    w := h;
    ghost var all := Flat(Fitting(list, elen, len - h));
    ghost var done: seq<byte> := [];
    assert list[0..] == list && head + done == head && done + all == all;
    while i < |list| && w + elen <= len
      invariant 0 <= i <= |list| && w == h + |done| <= len
      invariant pdu[..] == Stored(before, head + done)
      invariant all == done + Flat(Fitting(list[i..], elen, len - w))
      decreases |list| - i
    {
      ElementLength(list, elen, i);
      NextFits(list, i, elen, len - w);
      Regroup(head, done, list[i], Flat(Fitting(list[i + 1..], elen, len - w - elen)));
      Append(pdu, before, head + done, w, list[i]);
      done := done + list[i];
      w := w + elen;
      i := i + 1;
    }
    NoneFits(list, i, elen, len - w);
    assert done + [] == done;
  }

  lemma {:induction false} ElementLength(list: seq<seq<byte>>, elen: nat, i: nat)
    requires Uniform(list, elen) && i < |list|
    ensures |list[i]| == elen
  {
  }

  lemma {:induction false} Regroup(a: seq<byte>, b: seq<byte>, c: seq<byte>, d: seq<byte>)
    ensures a + b + c == a + (b + c) && b + (c + d) == b + c + d
  {
  }

  lemma {:induction false} NextFits(list: seq<seq<byte>>, i: nat, elen: nat, room: nat)
    requires i < |list| && elen <= room
    ensures Flat(Fitting(list[i..], elen, room)) == list[i] + Flat(Fitting(list[i + 1..], elen, room - elen))
  {
    assert list[i..][1..] == list[i + 1..];
    var p := Fitting(list[i + 1..], elen, room - elen);
    assert ([list[i]] + p)[1..] == p;
  }

  lemma {:induction false} NoneFits(list: seq<seq<byte>>, i: nat, elen: nat, room: nat)
    requires i == |list| || (i < |list| && room < elen)
    ensures Flat(Fitting(list[i..], elen, room)) == []
  {
  }

  /** enc_read_by_grp_resp. */
  method PutGroupResp(list: seq<seq<byte>>, elen: u16, pdu: array<byte>, len: u16) returns (n: u16)
    requires Uniform(list, elen) && len <= pdu.Length
    modifies pdu
    ensures n == |EncGroupResp(list, elen, len)| <= pdu.Length
    ensures pdu[..] == Stored(old(pdu[..]), EncGroupResp(list, elen, len))
  {
    ghost var b := pdu[..];
    hide Flat, Fitting, Stored;
    StoredNothing(b);
    if len < elen + 2 { return 0; }
    n := PutTagged(0x11, elen % 0x100, list, elen, pdu, len, b);
  }

  /** Opcode, tag and the elements that fit. */
  method PutTagged(op: byte, tag: byte, list: seq<seq<byte>>, elen: nat, pdu: array<byte>, len: nat,
        ghost b: seq<byte>) returns (n: nat)
    requires Uniform(list, elen) && 2 <= len <= pdu.Length && b == pdu[..]
    modifies pdu
    ensures n == |Listed(op, tag, list, elen, len)| <= len && pdu[..] == Stored(b, Listed(op, tag, list, elen, len))
  {
    hide Flat, Fitting, Stored;
    StoredNothing(b);
    Append(pdu, b, [], 0, [op, tag]);
    assert [] + [op, tag] == [op, tag];
    n := PutElements(list, elen, pdu, len, 2, b, [op, tag]);
  }

  /** enc_find_info_resp. */
  method PutFindInfoResp(format: byte, list: seq<seq<byte>>, elen: u16, pdu: array<byte>, len: nat) returns (n: u16)
    requires Uniform(list, elen) && len <= pdu.Length
    modifies pdu
    ensures |EncFindInfoResp(format, list, elen, len)| <= pdu.Length
            && n == |EncFindInfoResp(format, list, elen, len)| % 0x1_0000
    ensures pdu[..] == Stored(old(pdu[..]), EncFindInfoResp(format, list, elen, len))
  {
    ghost var b := pdu[..];
    hide Flat, Fitting, Stored;
    StoredNothing(b);
    if len < elen + 2 { return 0; }
    var w := PutTagged(0x05, format, list, elen, pdu, len, b);
    n := w % 0x1_0000;
  }

  /** enc_read_by_type_resp; None when not even opcode and tag fit and the copy length is negative. */
  method PutTypeResp(list: seq<seq<byte>>, elen: u16, pdu: array<byte>, len: nat) returns (n: Option<u16>)
    requires Uniform(list, elen) && len <= pdu.Length
    modifies pdu
    ensures if len < 2 then n == None && pdu[..] == old(pdu[..])
            else |EncTypeResp(list, elen, len)| <= pdu.Length && n == Some(|EncTypeResp(list, elen, len)| % 0x1_0000)
                 && pdu[..] == Stored(old(pdu[..]), EncTypeResp(list, elen, len))
  {
    var l := if elen < len - 2 then elen else len - 2;
    if l < 0 { return None; }
    ghost var b := pdu[..];
    assert Uniform(Clip(list, l), l);
    hide Stored, Clip, Listed;
    var w := PutTagged(0x09, l % 0x100, Clip(list, l), l, pdu, len, b);
    n := Some(w % 0x1_0000);
  }

  /** enc_find_by_type_resp. */
  method PutRanges(ranges: seq<Range>, pdu: array<byte>, len: u16) returns (n: u16)
    requires len <= pdu.Length
    modifies pdu
    ensures n == |EncRanges(ranges, len)| <= pdu.Length
    ensures pdu[..] == Stored(old(pdu[..]), EncRanges(ranges, len))
  {
    ghost var b := pdu[..];
    hide Flat, Fitting, Stored, AsOctets;
    StoredNothing(b);
    if len < 5 { return 0; }
    Append(pdu, b, [], 0, [0x07]);
    assert [] + [0x07] == [0x07];
    n := PutElements(AsOctets(ranges), 4, pdu, len, 1, b, [0x07]);
  }

  /** The loop of the list decoders: as many elements as lie behind the first `h` octets. */
  method ReadElements(pdu: seq<byte>, h: nat, elen: nat) returns (list: seq<seq<byte>>)
    requires |pdu| >= h && elen > 0
    ensures list == Split(pdu[h..], elen)
  {
    ghost var all := Split(pdu[h..], elen);
    SplitLength(pdu[h..], elen);
    var num := (|pdu| - h) / elen;
    var ptr := h;
    list := [];
    var i := 0;
    while i < num
      invariant 0 <= i <= num && h <= ptr <= |pdu|
      invariant all == list + Split(pdu[ptr..], elen) && |list| == i
    {
      assert Split(pdu[ptr..], elen) != [];
      assert pdu[ptr..][elen..] == pdu[ptr + elen..] && pdu[ptr..][..elen] == pdu[ptr..ptr + elen];
      list := list + [pdu[ptr..ptr + elen]];
      ptr := ptr + elen;
      i := i + 1;
    }
  }

  /** dec_read_by_grp_resp, dec_read_by_type_resp. */
  method ReadList(op: byte, pdu: seq<byte>) returns (r: Decoded)
    ensures r == DecListResp(op, pdu)
  {
    if At(pdu, 0) != op { return OtherOpcode; }
    if At(pdu, 1) == 0 { return DivisionByZero; }
    var list := ReadElements(pdu, 2, pdu[1]);
    return Elements(list);
  }

  /** dec_find_by_type_resp. */
  method ReadRanges(pdu: seq<byte>) returns (matches: seq<Range>)
    ensures matches == DecRanges(pdu)
  {
    if |pdu| < 5 || pdu[0] != 0x07 { return []; }
    var list := ReadElements(pdu, 1, 4);
    matches := [];
    for i := 0 to |list|
      invariant matches == AsRanges(list[..i])
    {
      assert list[..i + 1] == list[..i] + [list[i]];
      matches := matches + [Range(GetU16(list[i]), GetU16(list[i][2..]))];
    }
    assert list[..|list|] == list;
  }
}
