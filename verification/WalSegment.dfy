// One log record: sequence number, payload length, payload, checksum. The
// checksum is some function of number and payload.
module WalSegment {
  import opened Common
  import opened Bytes

  type Payload = seq<Byte>
  type Checksum = (nat, Payload) -> U32

  const HEADER_SIZE: nat := 12
  const RECORD_OVERHEAD: nat := 16
  const MAX_PAYLOAD_SIZE: nat := 256 * 1024 * 1024

  datatype DecodeError = Incomplete | CrcMismatch(sequence: nat)

  datatype Decoded = Decoded(sequence: nat, payload: Payload, consumed: nat)

  function Encoded(crc: Checksum, sequence: nat, payload: Payload): (r: seq<Byte>)
    ensures |r| == RECORD_OVERHEAD + |payload|
  {
    ToLe(sequence, 8) + ToLe(|payload|, 4) + payload + ToLe(crc(sequence, payload), 4)
  }

  // Write a record into a buffer of at least its size.
  method EncodeRecord(crc: Checksum, buf: array<Byte>, sequence: nat, payload: Payload)
    requires buf.Length >= RECORD_OVERHEAD + |payload|
    modifies buf
    ensures buf[..RECORD_OVERHEAD + |payload|] == Encoded(crc, sequence, payload)
    ensures buf[RECORD_OVERHEAD + |payload|..] == old(buf[RECORD_OVERHEAD + |payload|..])
  {
    hide ToLe;
    ghost var tail := buf[RECORD_OVERHEAD + |payload|..];
    CopyInto(buf, 0, ToLe(sequence, 8));
    assert buf[..8] == ToLe(sequence, 8);
    CopyInto(buf, 8, ToLe(|payload|, 4));
    assert buf[..12] == ToLe(sequence, 8) + ToLe(|payload|, 4);
    CopyInto(buf, 12, payload);
    assert buf[..12 + |payload|] == ToLe(sequence, 8) + ToLe(|payload|, 4) + payload;
    CopyInto(buf, 12 + |payload|, ToLe(crc(sequence, payload), 4));
    assert buf[RECORD_OVERHEAD + |payload|..] == tail;
  }

  // What is before `at` stays, then come the bytes, then what was there.
  method CopyInto(buf: array<Byte>, at: nat, bytes: seq<Byte>)
    requires at + |bytes| <= buf.Length
    modifies buf
    ensures forall i :: at + |bytes| <= i < buf.Length ==> buf[i] == old(buf[i])
    ensures buf[..at + |bytes|] == old(buf[..at]) + bytes
  {
    for i := 0 to |bytes|
      invariant buf[..at] == old(buf[..at])
      invariant forall j :: at + |bytes| <= j < buf.Length ==> buf[j] == old(buf[j])
      invariant buf[at..at + i] == bytes[..i]
    {
      buf[at + i] := bytes[i];
      assert buf[at..at + i + 1] == buf[at..at + i] + [bytes[i]];
    }
    assert buf[..at + |bytes|] == buf[..at] + buf[at..at + |bytes|];
  }

  // Read the record at an offset.
  function Decode(crc: Checksum, data: seq<Byte>, offset: nat): (r: Result<Decoded, DecodeError>)
    requires offset <= |data|
    ensures r.Ok? ==> RECORD_OVERHEAD <= r.value.consumed <= |data| - offset
  {
    var remaining := |data| - offset;
    if remaining < HEADER_SIZE then Err(Incomplete)
    else
      var sequence := FromLe(data[offset..offset + 8]);
      var payloadLen := FromLe(data[offset + 8..offset + 12]);
      var total := RECORD_OVERHEAD + payloadLen;
      if remaining < total then Err(Incomplete)
      else
        var payload := data[offset + 12..offset + 12 + payloadLen];
        var storedCrc := FromLe(data[offset + 12 + payloadLen..offset + total]);
        if storedCrc != crc(sequence, payload) then Err(CrcMismatch(sequence))
        else Ok(Decoded(sequence, payload, total))
  }

  predicate Storable(sequence: nat, payload: Payload) {
    sequence < U64_LIMIT && |payload| <= MAX_PAYLOAD_SIZE
  }

  // A number, a length, a body and a checksum, as they stand in the data.
  lemma FieldsOf(data: seq<Byte>, offset: nat, sequence: nat, body: Payload, sum: U32)
    requires offset <= |data| && Storable(sequence, body)
    requires ToLe(sequence, 8) + ToLe(|body|, 4) + body + ToLe(sum, 4) <= data[offset..]
    ensures var n := |body|;
      && |data| - offset >= 16 + n
      && FromLe(data[offset..offset + 8]) == sequence
      && FromLe(data[offset + 8..offset + 12]) == n
      && data[offset + 12..offset + 12 + n] == body
      && FromLe(data[offset + 12 + n..offset + 16 + n]) == sum
  {
    hide ToLe, FromLe;
    var n := |body|;
    var e := ToLe(sequence, 8) + ToLe(n, 4) + body + ToLe(sum, 4);
    FourParts(ToLe(sequence, 8), ToLe(n, 4), body, ToLe(sum, 4));
    PartAt(data, offset, e, 0, 8);
    PartAt(data, offset, e, 8, 12);
    PartAt(data, offset, e, 12, 12 + n);
    PartAt(data, offset, e, 12 + n, 16 + n);
    Widths();
    LeRoundTrip(sequence, 8);
    LeRoundTrip(n, 4);
    LeRoundTrip(sum, 4);
  }

  lemma FourParts<T>(a: seq<T>, b: seq<T>, c: seq<T>, d: seq<T>)
    ensures var e, i, j := a + b + c + d, |a| + |b|, |a| + |b| + |c|;
      e[0..|a|] == a && e[|a|..i] == b && e[i..j] == c && e[j..j + |d|] == d
  {
  }

  lemma PartAt<T>(data: seq<T>, offset: nat, e: seq<T>, i: nat, j: nat)
    requires offset <= |data| && e <= data[offset..] && i <= j <= |e|
    ensures offset + j <= |data| && data[offset + i..offset + j] == e[i..j]
  {
    assert forall k :: 0 <= k < |e| ==> data[offset..][k] == e[k];
  }

  // The fields of an encoded record, where they stand in the data.
  lemma FieldsAt(crc: Checksum, data: seq<Byte>, offset: nat, sequence: nat, payload: Payload)
    requires offset <= |data| && Storable(sequence, payload)
    requires Encoded(crc, sequence, payload) <= data[offset..]
    ensures var n := |payload|;
      && |data| - offset >= 16 + n
      && FromLe(data[offset..offset + 8]) == sequence
      && FromLe(data[offset + 8..offset + 12]) == n
      && data[offset + 12..offset + 12 + n] == payload
      && FromLe(data[offset + 12 + n..offset + 16 + n]) == crc(sequence, payload)
  {
    hide ToLe, FromLe;
    FieldsOf(data, offset, sequence, payload, crc(sequence, payload));
  }

  // Decoding what was encoded gives it back, whatever follows.
  lemma DecodeEncoded(crc: Checksum, data: seq<Byte>, offset: nat, sequence: nat, payload: Payload)
    requires offset <= |data| && Storable(sequence, payload)
    requires Encoded(crc, sequence, payload) <= data[offset..]
    ensures Decode(crc, data, offset) == Ok(Decoded(sequence, payload, RECORD_OVERHEAD + |payload|))
  {
    hide Encoded, ToLe, FromLe;
    FieldsAt(crc, data, offset, sequence, payload);
  }

  // A record torn at any byte reads as incomplete, never as corrupt.
  lemma DecodeTorn(crc: Checksum, data: seq<Byte>, offset: nat, sequence: nat, payload: Payload)
    requires offset <= |data| && Storable(sequence, payload)
    requires data[offset..] < Encoded(crc, sequence, payload)
    ensures Decode(crc, data, offset) == Err(Incomplete)
  {
    var e, n := Encoded(crc, sequence, payload), |payload|;
    if |data| - offset >= 12 {
      assert forall i :: 0 <= i < |data| - offset ==> data[offset + i] == e[i];
      assert data[offset + 8..offset + 12] == ToLe(n, 4);
      Widths();
      LeRoundTrip(n, 4);
    }
  }

  // What a record becomes if bytes of its payload change after it was written.
  function Damaged(crc: Checksum, sequence: nat, payload: Payload, damaged: Payload): seq<Byte> {
    ToLe(sequence, 8) + ToLe(|payload|, 4) + damaged + ToLe(crc(sequence, payload), 4)
  }

  // Such a record is refused under its number unless the checksum does not see
  // the change.
  lemma DecodeDamaged(crc: Checksum, data: seq<Byte>, offset: nat, sequence: nat, payload: Payload, damaged: Payload)
    requires offset <= |data| && Storable(sequence, payload) && |damaged| == |payload|
    requires Damaged(crc, sequence, payload, damaged) <= data[offset..]
    ensures Decode(crc, data, offset)
         == if crc(sequence, damaged) != crc(sequence, payload) then Err(CrcMismatch(sequence))
            else Ok(Decoded(sequence, damaged, RECORD_OVERHEAD + |payload|))
  {
    hide ToLe, FromLe;
    FieldsOf(data, offset, sequence, damaged, crc(sequence, payload));
  }
}
