/**
 Reading a long characteristic value (gatt_read_char from offset 0 and its two
 callbacks; section 4.8.3 of Bluetooth Core Specification Vol 3 Part G).
 */
module LongRead {
  import opened Octets
  import opened AttPdu

  /** The receive buffer of received_data, and the modulus of struct read_long_data's size. */
  const RX_BUFFER: nat := 512
  const SIZE_MODULUS: nat := 0x1_0000

  /** What a callback of the read does: ask for more, keeping `bytes`, or call the user's function. */
  datatype Reaction = Ask(bytes: seq<byte>) | Report(status: byte, bytes: seq<byte>)

  /** read_char_helper. */
  function ReadCharHelper(status: byte, rx: seq<byte>, mtu: nat): Reaction {
    if status != 0 || |rx| < mtu then Report(status, rx) else Ask(rx)
  }

  /** The buffer after a chunk was appended; its size is kept in 16 bits. */
  function Grow(bytes: seq<byte>, chunk: seq<byte>): (grown: seq<byte>)
    ensures |grown| < SIZE_MODULUS
    ensures |bytes| + |chunk| < SIZE_MODULUS ==> grown == bytes + chunk
  {
    (bytes + chunk)[..(|bytes| + |chunk|) % SIZE_MODULUS]
  }

  /** read_blob_helper: any error ends the read with what has been collected, and with status 0. */
  function ReadBlobHelper(bytes: seq<byte>, status: byte, rx: seq<byte>, mtu: nat): Reaction {
    if status != 0 || |rx| <= 1 then Report(0, bytes)
    else
      var grown := Grow(bytes, rx[1..]);
      if |rx| < mtu then Report(0, grown) else Ask(grown)
  }

  /** The offset of the next blob request: size - 1 as a 16-bit number. */
  function NextOffset(bytes: seq<byte>): u16 {
    (|bytes| + SIZE_MODULUS - 1) % SIZE_MODULUS
  }

  // ----- against a server -----

  /** What a server holding `value` sends for a read request. */
  function AnswerRead(value: seq<byte>, mtu: nat): seq<byte>
    requires mtu >= 1
  {
    Received(EncReadResp(value, mtu))
  }

  /** What it sends for a blob request. */
  function AnswerBlob(value: seq<byte>, offset: nat, mtu: nat): seq<byte>
    requires mtu >= 1
  {
    if offset <= |value| then Received(EncReadBlobResp(value, offset, mtu)) else EncError(0x0C, 0, 0x07, mtu)
  }

  function Received(pdu: seq<byte>): seq<byte> {
    pdu[..Min(|pdu|, RX_BUFFER)]
  }

  datatype Reader = First | Next(bytes: seq<byte>) | Finished(status: byte, bytes: seq<byte>)

  function AfterReaction(r: Reaction): Reader {
    match r
    case Ask(bytes) => Next(bytes)
    case Report(status, bytes) => Finished(status, bytes)
  }

  /** One request and its reply. */
  function Round(value: seq<byte>, mtu: nat, r: Reader): Reader
    requires mtu >= 1
  {
    match r
    case First => AfterReaction(ReadCharHelper(0, AnswerRead(value, mtu), mtu))
    case Next(bytes) =>
      var offset := NextOffset(bytes);
      AfterReaction(ReadBlobHelper(bytes, if offset <= |value| then 0 else 0x07, AnswerBlob(value, offset, mtu), mtu))
    case Finished(_, _) => r
  }

  function Rounds(value: seq<byte>, mtu: nat, r: Reader, n: nat): Reader
    requires mtu >= 1
    decreases n
  {
    if n == 0 then r else Rounds(value, mtu, Round(value, mtu, r), n - 1)
  }

  lemma {:induction false} BlobRound(value: seq<byte>, mtu: nat, k: nat)
    requires 2 <= mtu <= RX_BUFFER && k <= |value| && |value| + 1 < SIZE_MODULUS
    ensures Round(value, mtu, Next([0x0B] + value[..k])) ==
            if |value| - k < mtu - 1 then Finished(0, [0x0B] + value) else Next([0x0B] + value[..k + mtu - 1])
  {
    var more := Min(|value| - k, mtu - 1);
    BlobAnswered(value, mtu, k);
    hide AnswerBlob, NextOffset;
    assert value[..|value|] == value;
  }

  lemma {:induction false} BlobAnswered(value: seq<byte>, mtu: nat, k: nat)
    requires 2 <= mtu <= RX_BUFFER && k <= |value| && |value| + 1 < SIZE_MODULUS
    ensures var bytes, chunk := [0x0B] + value[..k], value[k..k + Min(|value| - k, mtu - 1)];
            && NextOffset(bytes) == k && AnswerBlob(value, k, mtu) == [0x0D] + chunk && ([0x0D] + chunk)[1..] == chunk
            && bytes + chunk == [0x0B] + value[..k + |chunk|]
  {
    var chunk := value[k..k + Min(|value| - k, mtu - 1)];
    assert EncReadBlobResp(value, k, mtu) == [0x0D] + chunk;
    hide EncReadBlobResp;
    assert value[..k] + chunk == value[..k + |chunk|];
    assert [0x0B] + value[..k] + chunk == [0x0B] + (value[..k] + chunk);
  }

  lemma {:induction false} NoRounds(value: seq<byte>, mtu: nat, r: Reader)
    requires mtu >= 1
    ensures Rounds(value, mtu, r, 0) == r
  {
  }

  lemma {:induction false} OneMoreRound(value: seq<byte>, mtu: nat, r: Reader, n: nat)
    requires mtu >= 1
    ensures Rounds(value, mtu, r, n + 1) == Rounds(value, mtu, Round(value, mtu, r), n)
  {
  }

  /** Every round leaves fewer octets of the value to be read, and the last one delivers all of it. */
  lemma {:induction false} Reassembles(value: seq<byte>, mtu: nat, k: nat) returns (n: nat)
    requires 2 <= mtu <= RX_BUFFER && k <= |value| && |value| + 1 < SIZE_MODULUS
    ensures Rounds(value, mtu, Next([0x0B] + value[..k]), n) == Finished(0, [0x0B] + value)
    decreases |value| - k
  {
    hide Round, Rounds;
    BlobRound(value, mtu, k);
    n := 0;
    if |value| - k >= mtu - 1 { n := Reassembles(value, mtu, k + mtu - 1); }
    else { NoRounds(value, mtu, Finished(0, [0x0B] + value)); }
    OneMoreRound(value, mtu, Next([0x0B] + value[..k]), n);
    n := n + 1;
  }

  lemma {:induction false} FinishedStays(value: seq<byte>, mtu: nat, status: byte, bytes: seq<byte>, n: nat)
    requires mtu >= 1
    ensures Rounds(value, mtu, Finished(status, bytes), n) == Finished(status, bytes)
  {
    if n > 0 { FinishedStays(value, mtu, status, bytes, n - 1); }
  }

  /** What is collected after the first round always fits 16 bits. */
  lemma {:induction false} CollectedFits(value: seq<byte>, mtu: nat, r: Reader, n: nat)
    requires mtu >= 1 && !r.First? && |r.bytes| < SIZE_MODULUS
    ensures var t := Rounds(value, mtu, r, n); !t.First? && |t.bytes| < SIZE_MODULUS
    decreases n
  {
    if n > 0 { CollectedFits(value, mtu, Round(value, mtu, r), n - 1); }
  }

  /** The value with its opcode fits the 16-bit size, and one reply fits the receive buffer. */
  predicate Deliverable(value: seq<byte>, mtu: nat) {
    |value| + 1 < SIZE_MODULUS && (mtu <= RX_BUFFER || |value| + 1 <= RX_BUFFER)
  }

  lemma {:induction false} FirstRound(value: seq<byte>, mtu: nat)
    requires mtu >= 23
    ensures var cut := Min(|value|, Min(mtu, RX_BUFFER) - 1);
            var rx := [0x0B] + value[..cut];
            Round(value, mtu, First) == if |rx| < mtu then Finished(0, rx) else Next(rx)
  {
  }

  lemma {:induction false} ReadCompletes(value: seq<byte>, mtu: nat) returns (n: nat)
    requires mtu >= 23 && Deliverable(value, mtu)
    ensures Rounds(value, mtu, First, n) == Finished(0, [0x0B] + value)
  {
    FirstRound(value, mtu);
    hide Round;
    if |value| + 1 < mtu {
      assert value[..|value|] == value;
      n := 1;
      assert Rounds(value, mtu, Round(value, mtu, First), 0) == Round(value, mtu, First);
    } else {
      n := Reassembles(value, mtu, mtu - 1);
      n := n + 1;
    }
  }

  lemma {:induction false} ReadIsCut(value: seq<byte>, mtu: nat, n: nat)
    requires mtu >= 23 && !Deliverable(value, mtu)
    ensures Rounds(value, mtu, First, n) != Finished(0, [0x0B] + value)
  {
    if n > 0 {
      var one := Round(value, mtu, First);
      FirstRound(value, mtu);
      hide Round;
      assert Rounds(value, mtu, First, n) == Rounds(value, mtu, one, n - 1);
      CollectedFits(value, mtu, one, n - 1);
      if one.Finished? { FinishedStays(value, mtu, one.status, one.bytes, n - 1); }
    }
  }

  /**
   The read delivers the opcode followed by exactly the value if and only if
   the value with its opcode fits the 16-bit size, and fits the receive buffer
   in one reply when replies can be longer than that buffer.
   */
  lemma {:induction false} LongReadIsExact(value: seq<byte>, mtu: nat)
    requires mtu >= 23
    ensures (exists n :: Rounds(value, mtu, First, n) == Finished(0, [0x0B] + value))
            <==> Deliverable(value, mtu)
  {
    hide Rounds;
    if Deliverable(value, mtu) {
      var n := ReadCompletes(value, mtu);
    } else {
      forall n: nat ensures Rounds(value, mtu, First, n) != Finished(0, [0x0B] + value) { ReadIsCut(value, mtu, n); }
    }
  }

  // ----- the record, updated in place -----

  /** struct read_long_data. */
  class ReadLongData {
    const handle: u16
    var buffer: seq<byte>
    var size: u16
    var ref: int

    ghost predicate Valid()
      reads this
    {
      size <= |buffer|
    }

    /** The octets a user would be given now. */
    ghost function Collected(): seq<byte>
      requires Valid()
      reads this
    {
      buffer[..size]
    }

    constructor (handle: u16)
      ensures Valid() && this.handle == handle && Collected() == [] && ref == 0
    {
      this.handle := handle;
      buffer, size, ref := [], 0, 0;
    }

    /** read_long_destroy. */
    method Destroy() returns (freed: bool)
      modifies this`ref
      ensures ref == old(ref) - 1 && (freed <==> ref == 0)
    {
      ref := ref - 1;
      freed := ref == 0;
    }

    /** read_char_helper; `request` is the blob request it sends, if it sends one. */
    method OnFirst(status: byte, rx: seq<byte>, mtu: nat) returns (request: seq<byte>,
          reported: Option<(byte, seq<byte>)>)
      requires Valid() && |rx| <= RX_BUFFER && 5 <= mtu
      modifies this`buffer, this`size, this`ref
      ensures Valid()
      ensures match ReadCharHelper(status, rx, mtu)
              case Ask(bytes) => reported.None? && Collected() == bytes && ref == old(ref) + 1
                                 && request == EncWords(0x0C, handle, NextOffset(bytes), mtu)
              case Report(st, bytes) => reported == Some((st, bytes)) && request == [] && ref == old(ref)
    {
      if status != 0 || |rx| < mtu { return [], Some((status, rx)); }
      buffer, size := rx, |rx|;
      ref := ref + 1;
      return EncWords(0x0C, handle, size - 1, mtu), None;
    }

    /** read_blob_helper. */
    method OnNext(status: byte, rx: seq<byte>, mtu: nat) returns (request: seq<byte>,
          reported: Option<(byte, seq<byte>)>)
      requires Valid() && |rx| <= RX_BUFFER && 5 <= mtu
      modifies this`buffer, this`size, this`ref
      ensures Valid()
      ensures match ReadBlobHelper(old(Collected()), status, rx, mtu)
              case Ask(bytes) => reported.None? && Collected() == bytes && ref == old(ref) + 1
                                 && request == EncWords(0x0C, handle, NextOffset(bytes), mtu)
              case Report(st, bytes) => reported == Some((st, bytes)) && request == [] && ref == old(ref)
    {
      if status != 0 || |rx| <= 1 { return [], Some((0, buffer[..size])); }
      buffer := buffer[..size] + rx[1..];
      size := (size + |rx| - 1) % SIZE_MODULUS;
      if |rx| < mtu { return [], Some((0, buffer[..size])); }
      ref := ref + 1;
      return EncWords(0x0C, handle, (size + SIZE_MODULUS - 1) % SIZE_MODULUS, mtu), None;
    }
  }
}
