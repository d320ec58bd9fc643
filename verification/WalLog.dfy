// The log as a value: records spread over segments, what recovery and reading
// make of the segments' bytes, and what a crash leaves.
module WalLog {
  import opened Common
  import opened Bytes
  import opened WalSegment

  // A segment file: the first sequence number, from its name, and its bytes.
  type Segment = (nat, seq<Byte>)

  type Record = (nat, Payload)

  datatype WalError =
    | Corrupt(sequence: nat) | SequenceGap(expected: nat, found: nat) | PayloadTooLarge(size: nat)

  // ── Recovery ──────────────────────────────────────────────────────────

  datatype ScanEnd =
    | AtEnd(next: nat) | Torn(next: nat, offset: nat) | Gap(expected: nat, found: nat) | Bad(sequence: nat)

  // Walk one segment's records, expecting the number `next` at `offset`.
  function Scan(crc: Checksum, data: seq<Byte>, offset: nat, next: nat): (r: ScanEnd)
    requires offset <= |data|
    ensures r.Torn? ==> offset <= r.offset <= |data|
    decreases |data| - offset
  {
    if offset >= |data| then AtEnd(next)
    else
      match Decode(crc, data, offset)
      case Ok(d) => if d.sequence != next then Gap(next, d.sequence) else Scan(crc, data, offset + d.consumed, next + 1)
      case Err(Incomplete) => Torn(next, offset)
      case Err(CrcMismatch(s)) => Bad(s)
  }

  // The next sequence number, and the last segment's name and whole bytes if
  // its tail is torn.
  type Recovery = Result<(nat, Option<(nat, nat)>), WalError>

  function RecoverFrom(crc: Checksum, segments: seq<Segment>, i: nat, next: nat): (r: Recovery)
    requires i <= |segments|
    ensures r.Ok? && r.value.1.Some? ==>
              segments != [] && r.value.1.value.0 == segments[|segments| - 1].0
              && r.value.1.value.1 <= |segments[|segments| - 1].1|
    decreases |segments| - i
  {
    if i == |segments| then Ok((next, None))
    else
      match Scan(crc, segments[i].1, 0, next)
      case AtEnd(n) => RecoverFrom(crc, segments, i + 1, n)
      case Torn(n, offset) =>
        if i == |segments| - 1 then Ok((n, Some((segments[i].0, offset)))) else Err(Corrupt(n))
      case Gap(expected, found) => Err(SequenceGap(expected, found))
      case Bad(s) => Err(Corrupt(s))
  }

  // ── Reading ───────────────────────────────────────────────────────────

  // The callback sees every record so far and says whether to go on.
  type Callback = seq<Record> -> bool

  datatype ReadState = Reading(got: seq<Record>) | Stopped(got: seq<Record>) | Failed(got: seq<Record>, sequence: nat)

  function ReadSegment(crc: Checksum, data: seq<Byte>, offset: nat, start: nat, go: Callback, got: seq<Record>)
    : ReadState
    requires offset <= |data|
    decreases |data| - offset
  {
    if offset >= |data| then Reading(got)
    else
      match Decode(crc, data, offset)
      case Ok(d) =>
        if d.sequence < start then ReadSegment(crc, data, offset + d.consumed, start, go, got)
        else
          var got' := got + [(d.sequence, d.payload)];
          if !go(got') then Stopped(got') else ReadSegment(crc, data, offset + d.consumed, start, go, got')
      case Err(Incomplete) => Reading(got)
      case Err(CrcMismatch(s)) => Failed(got, s)
  }

  function ReadSegments(crc: Checksum, segments: seq<Segment>, i: nat, start: nat, go: Callback, got: seq<Record>)
    : ReadState
    requires i <= |segments|
    decreases |segments| - i
  {
    if i == |segments| then Reading(got)
    else
      match ReadSegment(crc, segments[i].1, 0, start, go, got)
      case Reading(got') => ReadSegments(crc, segments, i + 1, start, go, got')
      case other => other
  }

  ghost predicate Ascending(segments: seq<Segment>) {
    forall i, j :: 0 <= i < j < |segments| ==> segments[i].0 < segments[j].0
  }

  // Where reading starts: the last segment that begins at or before `start`, or
  // the first of all.
  ghost predicate StartsAt(segments: seq<Segment>, start: nat, i: nat) {
    && i < |segments|
    && (segments[i].0 <= start || i == 0)
    && (i + 1 < |segments| ==> start < segments[i + 1].0)
  }

  // ── Logs ──────────────────────────────────────────────────────────────

  // What a segment is meant to hold: consecutive records from `first` on.
  datatype Chunk = Chunk(first: nat, payloads: seq<Payload>) {
    function Next(): nat {
      first + |payloads|
    }
  }

  function BytesOf(crc: Checksum, first: nat, payloads: seq<Payload>): (r: seq<Byte>)
    ensures |r| == SizeOf(payloads)
  {
    if payloads == [] then []
    else
      var n := |payloads| - 1;
      BytesOf(crc, first, payloads[..n]) + Encoded(crc, first + n, payloads[n])
  }

  function SizeOf(payloads: seq<Payload>): nat {
    if payloads == [] then 0
    else SizeOf(payloads[..|payloads| - 1]) + RECORD_OVERHEAD + |payloads[|payloads| - 1]|
  }

  // Segments follow each other without a gap, and only the last may be empty.
  ghost predicate Contiguous(chunks: seq<Chunk>) {
    && (chunks != [] ==> chunks[0].first == 0)
    && (forall i :: 0 <= i && i + 1 < |chunks| ==> chunks[i + 1].first == chunks[i].Next() && chunks[i].payloads != [])
  }

  predicate StorableAll(first: nat, payloads: seq<Payload>) {
    forall i :: 0 <= i < |payloads| ==> Storable(first + i, payloads[i])
  }

  ghost predicate StorableLog(chunks: seq<Chunk>) {
    forall i :: 0 <= i < |chunks| ==> StorableAll(chunks[i].first, chunks[i].payloads)
  }

  function Count(chunks: seq<Chunk>): nat {
    if chunks == [] then 0 else chunks[|chunks| - 1].Next()
  }

  // All payloads, in order; record n is Flat(chunks)[n].
  function Flat(chunks: seq<Chunk>): seq<Payload> {
    if chunks == [] then [] else Flat(chunks[..|chunks| - 1]) + chunks[|chunks| - 1].payloads
  }

  lemma {:induction false} FlatCounts(chunks: seq<Chunk>)
    requires Contiguous(chunks)
    ensures |Flat(chunks)| == Count(chunks)
  {
    if chunks != [] {
      var init := chunks[..|chunks| - 1];
      assert forall i :: 0 <= i < |init| ==> init[i] == chunks[i];
      FlatCounts(init);
    }
  }

  // Segment files that hold a log, the last one cut at byte k.
  ghost predicate HoldsCut(crc: Checksum, segments: seq<Segment>, chunks: seq<Chunk>, k: nat) {
    && |segments| == |chunks|
    && (forall i :: 0 <= i < |chunks| ==> segments[i].0 == chunks[i].first)
    && (forall i :: 0 <= i < |chunks| - 1 ==> segments[i].1 == BytesOf(crc, chunks[i].first, chunks[i].payloads))
    && (chunks != [] ==>
          var last := chunks[|chunks| - 1];
          k <= SizeOf(last.payloads) && segments[|chunks| - 1].1 == BytesOf(crc, last.first, last.payloads)[..k])
  }

  ghost predicate Holds(crc: Checksum, segments: seq<Segment>, chunks: seq<Chunk>) {
    && |segments| == |chunks|
    && forall i :: 0 <= i < |chunks| ==>
         segments[i] == (chunks[i].first, BytesOf(crc, chunks[i].first, chunks[i].payloads))
  }

  // ── A segment's bytes ─────────────────────────────────────────────────

  lemma PrefixParts<T>(b: seq<T>, e: seq<T>, data: seq<T>)
    requires b + e <= data
    ensures b <= data && e <= data[|b|..]
  {
    assert data[..|b|] == (b + e)[..|b|];
    assert data[|b|..][..|e|] == (b + e)[|b|..];
  }

  lemma BytesSnoc(crc: Checksum, first: nat, payloads: seq<Payload>)
    requires payloads != []
    ensures var n := |payloads| - 1;
      && BytesOf(crc, first, payloads) == BytesOf(crc, first, payloads[..n]) + Encoded(crc, first + n, payloads[n])
      && SizeOf(payloads) == SizeOf(payloads[..n]) + RECORD_OVERHEAD + |payloads[n]|
  {
  }

  lemma LastRecord(crc: Checksum, data: seq<Byte>, first: nat, payloads: seq<Payload>)
    requires payloads != [] && BytesOf(crc, first, payloads) <= data
    ensures var n := |payloads| - 1;
      && BytesOf(crc, first, payloads[..n]) <= data
      && SizeOf(payloads) == SizeOf(payloads[..n]) + RECORD_OVERHEAD + |payloads[n]| <= |data|
      && Encoded(crc, first + n, payloads[n]) <= data[SizeOf(payloads[..n])..]
  {
    hide *;
    BytesSnoc(crc, first, payloads);
    var n := |payloads| - 1;
    PrefixParts(BytesOf(crc, first, payloads[..n]), Encoded(crc, first + n, payloads[n]), data);
  }

  lemma {:induction false} ScanWhole(crc: Checksum, data: seq<Byte>, first: nat, payloads: seq<Payload>)
    requires StorableAll(first, payloads) && BytesOf(crc, first, payloads) <= data
    ensures SizeOf(payloads) <= |data|
    ensures Scan(crc, data, 0, first) == Scan(crc, data, SizeOf(payloads), first + |payloads|)
  {
    hide Encoded, Decode, BytesOf;
    if payloads != [] {
      var n := |payloads| - 1;
      var init := payloads[..n];
      LastRecord(crc, data, first, payloads);
      ScanWhole(crc, data, first, init);
      ScanOne(crc, data, SizeOf(init), first + n, payloads[n]);
    }
  }

  lemma ScanOne(crc: Checksum, data: seq<Byte>, offset: nat, sequence: nat, payload: Payload)
    requires offset <= |data| && Storable(sequence, payload)
    requires Encoded(crc, sequence, payload) <= data[offset..]
    ensures offset + RECORD_OVERHEAD + |payload| <= |data|
    ensures Scan(crc, data, offset, sequence) == Scan(crc, data, offset + RECORD_OVERHEAD + |payload|, sequence + 1)
  {
    hide Encoded, Decode;
    DecodeEncoded(crc, data, offset, sequence, payload);
  }

  // How many records are whole in the first k bytes.
  function Whole(payloads: seq<Payload>, k: nat): (j: nat)
    ensures j <= |payloads|
    ensures SizeOf(payloads[..j]) <= k
    ensures j < |payloads| ==> k < SizeOf(payloads[..j + 1])
  {
    if payloads == [] then 0
    else if SizeOf(payloads) <= k then assert payloads[..|payloads|] == payloads; |payloads|
    else
      var init := payloads[..|payloads| - 1];
      var j := Whole(init, k);
      assert init[..j] == payloads[..j];
      assert j < |init| ==> init[..j + 1] == payloads[..j + 1];
      assert j == |init| ==> payloads[..j + 1] == payloads;
      j
  }

  lemma {:induction false} PrefixBytes(crc: Checksum, first: nat, payloads: seq<Payload>, j: nat)
    requires j <= |payloads|
    ensures BytesOf(crc, first, payloads[..j]) <= BytesOf(crc, first, payloads)
  {
    if j < |payloads| {
      var init := payloads[..|payloads| - 1];
      PrefixBytes(crc, first, init, j);
      assert init[..j] == payloads[..j];
    } else {
      assert payloads[..j] == payloads;
    }
  }

  lemma CutInside<T>(all: seq<T>, k: nat, size: nat, e: seq<T>)
    requires size < k <= |all| && k < size + |e| && e <= all[size..]
    ensures all[..k][size..] < e
  {
    assert all[..k][size..] == all[size..][..k - size] == e[..k - size];
  }

  // What a cut leaves of a segment: whole records, then nothing or a torn one.
  lemma CutSegment(crc: Checksum, first: nat, payloads: seq<Payload>, k: nat)
    requires StorableAll(first, payloads) && k <= SizeOf(payloads)
    ensures var data := BytesOf(crc, first, payloads)[..k];
      var j := Whole(payloads, k);
      var size := SizeOf(payloads[..j]);
      && BytesOf(crc, first, payloads[..j]) <= data
      && (size < k ==> Decode(crc, data, size) == Err(Incomplete))
  {
    hide Encoded, Decode, BytesOf, SizeOf, Whole;
    var all := BytesOf(crc, first, payloads);
    var data, j := all[..k], Whole(payloads, k);
    var size := SizeOf(payloads[..j]);
    PrefixBytes(crc, first, payloads, j);
    assert BytesOf(crc, first, payloads[..j]) <= data;
    if size < k {
      assert j < |payloads| by { assert payloads[..|payloads|] == payloads; }
      PrefixBytes(crc, first, payloads, j + 1);
      var upTo := payloads[..j + 1];
      assert upTo[..j] == payloads[..j];
      LastRecord(crc, all, first, upTo);
      CutInside(all, k, size, Encoded(crc, first + j, payloads[j]));
      DecodeTorn(crc, data, size, first + j, payloads[j]);
    }
  }

  lemma ScanCut(crc: Checksum, first: nat, payloads: seq<Payload>, k: nat)
    requires StorableAll(first, payloads) && k <= SizeOf(payloads)
    ensures var j := Whole(payloads, k); var size := SizeOf(payloads[..j]);
      Scan(crc, BytesOf(crc, first, payloads)[..k], 0, first)
      == if size == k then AtEnd(first + j) else Torn(first + j, size)
  {
    hide Decode;
    var j := Whole(payloads, k);
    CutSegment(crc, first, payloads, k);
    assert StorableAll(first, payloads[..j]);
    ScanWhole(crc, BytesOf(crc, first, payloads)[..k], first, payloads[..j]);
  }

  // ── Crash recovery ────────────────────────────────────────────────────

  lemma {:induction false} RecoverReaches(crc: Checksum, segments: seq<Segment>, chunks: seq<Chunk>, k: nat, i: nat)
    requires Contiguous(chunks) && StorableLog(chunks) && HoldsCut(crc, segments, chunks, k) && i < |chunks|
    ensures RecoverFrom(crc, segments, 0, 0) == RecoverFrom(crc, segments, i, chunks[i].first)
  {
    hide *;
    FirstIsZero(chunks);
    if i > 0 {
      WholeSegment(crc, segments, chunks, k, i - 1);
      RecoverReaches(crc, segments, chunks, k, i - 1);
      RecoverOne(crc, segments, i - 1, chunks[i - 1].first, chunks[i].first);
    }
  }

  // Every segment before the last scans to the number the next one starts at.
  lemma WholeSegment(crc: Checksum, segments: seq<Segment>, chunks: seq<Chunk>, k: nat, i: nat)
    requires Contiguous(chunks) && StorableLog(chunks) && HoldsCut(crc, segments, chunks, k) && i + 1 < |chunks|
    ensures |segments| == |chunks| && Scan(crc, segments[i].1, 0, chunks[i].first) == AtEnd(chunks[i + 1].first)
  {
    NextChunk(crc, segments, chunks, k, i);
    hide Contiguous, StorableLog, HoldsCut, Scan, BytesOf, StorableAll;
    ScanAll(crc, chunks[i].first, chunks[i].payloads);
  }

  lemma RecoverOne(crc: Checksum, segments: seq<Segment>, i: nat, next: nat, after: nat)
    requires i < |segments| && Scan(crc, segments[i].1, 0, next) == AtEnd(after)
    ensures RecoverFrom(crc, segments, i, next) == RecoverFrom(crc, segments, i + 1, after)
  {
    hide Scan;
  }

  lemma FirstIsZero(chunks: seq<Chunk>)
    requires Contiguous(chunks)
    ensures chunks != [] ==> chunks[0].first == 0
  {
  }

  lemma NextChunk(crc: Checksum, segments: seq<Segment>, chunks: seq<Chunk>, k: nat, i: nat)
    requires Contiguous(chunks) && StorableLog(chunks) && HoldsCut(crc, segments, chunks, k) && i + 1 < |chunks|
    ensures |segments| == |chunks| && segments[i].1 == BytesOf(crc, chunks[i].first, chunks[i].payloads)
    ensures StorableAll(chunks[i].first, chunks[i].payloads) && chunks[i + 1].first == chunks[i].Next()
  {
  }

  lemma ScanAll(crc: Checksum, first: nat, payloads: seq<Payload>)
    requires StorableAll(first, payloads)
    ensures Scan(crc, BytesOf(crc, first, payloads), 0, first) == AtEnd(first + |payloads|)
  {
    ScanWhole(crc, BytesOf(crc, first, payloads), first, payloads);
  }

  // Cut the last segment of any log at any byte: recovery reports neither
  // corruption nor a gap, but the number of whole records and, if the cut is
  // inside a record, where that record begins.
  lemma CrashRecovers(crc: Checksum, segments: seq<Segment>, chunks: seq<Chunk>, k: nat)
    requires chunks != [] && Contiguous(chunks) && StorableLog(chunks) && HoldsCut(crc, segments, chunks, k)
    ensures var last := chunks[|chunks| - 1];
      var j := Whole(last.payloads, k);
      var size := SizeOf(last.payloads[..j]);
      RecoverFrom(crc, segments, 0, 0)
      == Ok((last.first + j, if size == k then None else Some((last.first, size))))
  {
    hide Scan, BytesOf, Whole, SizeOf;
    var n := |chunks| - 1;
    RecoverReaches(crc, segments, chunks, k, n);
    ScanCut(crc, chunks[n].first, chunks[n].payloads, k);
    assert segments[n].1 == BytesOf(crc, chunks[n].first, chunks[n].payloads)[..k];
  }

  // The log that a crash leaves behind.
  function AfterCrash(chunks: seq<Chunk>, k: nat): seq<Chunk>
    requires chunks != []
  {
    var n := |chunks| - 1;
    var last := chunks[n];
    chunks[n := last.(payloads := last.payloads[..Whole(last.payloads, k)])]
  }

  lemma AfterCrashIsLog(chunks: seq<Chunk>, k: nat)
    requires chunks != [] && Contiguous(chunks) && StorableLog(chunks)
    ensures Contiguous(AfterCrash(chunks, k)) && StorableLog(AfterCrash(chunks, k))
    ensures Flat(AfterCrash(chunks, k)) <= Flat(chunks) && |Flat(AfterCrash(chunks, k))| == Count(AfterCrash(chunks, k))
  {
    var n := |chunks| - 1;
    var after := AfterCrash(chunks, k);
    assert after[..n] == chunks[..n];
    assert Flat(after) == Flat(chunks[..n]) + after[n].payloads;
    assert forall i :: 0 <= i < n ==> after[i] == chunks[i];
    FlatCounts(after);
  }

  // Bytes that were on disk before the crash keep their records: if the cut is
  // past the first j records, at least j survive.
  lemma FlushedSurvives(payloads: seq<Payload>, k: nat, j: nat)
    requires j <= |payloads| && SizeOf(payloads[..j]) <= k
    ensures Whole(payloads, k) >= j
  {
    var w := Whole(payloads, k);
    if w < j {
      SizeMonotone(payloads, w + 1, j);
    }
  }

  lemma {:induction false} SizeMonotone(payloads: seq<Payload>, i: nat, j: nat)
    requires i <= j <= |payloads|
    ensures SizeOf(payloads[..i]) <= SizeOf(payloads[..j])
  {
    if i < j {
      SizeMonotone(payloads, i, j - 1);
      assert payloads[..j][..j - 1] == payloads[..j - 1];
    }
  }

  // ── Exact reads ───────────────────────────────────────────────────────

  // The records numbered from `first` whose number is at least `start`.
  function NumberedFrom(first: nat, payloads: seq<Payload>, start: nat): seq<Record>
    decreases |payloads|
  {
    if payloads == [] then []
    else (if first >= start then [(first, payloads[0])] else []) + NumberedFrom(first + 1, payloads[1..], start)
  }

  // What a callback that may stop early is given of some records.
  function Deliver(records: seq<Record>, go: Callback, got: seq<Record>): ReadState
    decreases |records|
  {
    if records == [] then Reading(got)
    else
      var got' := got + [records[0]];
      if !go(got') then Stopped(got') else Deliver(records[1..], go, got')
  }

  lemma {:induction false} DeliverConcat(a: seq<Record>, b: seq<Record>, go: Callback, got: seq<Record>)
    ensures Deliver(a + b, go, got)
            == match Deliver(a, go, got) { case Reading(g) => Deliver(b, go, g) case other => other }
    decreases |a|
  {
    if a == [] {
      assert a + b == b;
    } else {
      assert (a + b)[1..] == a[1..] + b;
      DeliverConcat(a[1..], b, go, got + [a[0]]);
    }
  }

  lemma {:induction false} NumberedConcat(first: nat, a: seq<Payload>, b: seq<Payload>, start: nat)
    ensures NumberedFrom(first, a + b, start) == NumberedFrom(first, a, start) + NumberedFrom(first + |a|, b, start)
    decreases |a|
  {
    if a == [] {
      assert a + b == b;
    } else {
      assert (a + b)[1..] == a[1..] + b;
      NumberedConcat(first + 1, a[1..], b, start);
    }
  }

  lemma {:induction false} NumberedBelow(first: nat, payloads: seq<Payload>, start: nat)
    requires first + |payloads| <= start
    ensures NumberedFrom(first, payloads, start) == []
    decreases |payloads|
  {
    if payloads != [] {
      NumberedBelow(first + 1, payloads[1..], start);
    }
  }

  // The numbered records are every one from `start` on, each once, in order.
  lemma {:induction false} NumberedExactly(first: nat, payloads: seq<Payload>, start: nat)
    ensures var lo := Max(start, first);
      var r := NumberedFrom(first, payloads, start);
      && |r| == Max(0, first + |payloads| - lo)
      && forall i :: 0 <= i < |r| ==> r[i] == (lo + i, payloads[lo + i - first])
    decreases |payloads|
  {
    if payloads != [] {
      NumberedExactly(first + 1, payloads[1..], start);
      var r, tail := NumberedFrom(first, payloads, start), NumberedFrom(first + 1, payloads[1..], start);
      var lo := Max(start, first);
      if first >= start {
        forall i | 0 <= i < |r| ensures r[i] == (lo + i, payloads[lo + i - first]) {
          if i > 0 { assert r[i] == tail[i - 1]; }
        }
      }
    }
  }

  lemma RecordAt(crc: Checksum, first: nat, payloads: seq<Payload>, i: nat)
    requires StorableAll(first, payloads) && i < |payloads|
    ensures var data, at := BytesOf(crc, first, payloads), SizeOf(payloads[..i]);
      && SizeOf(payloads[..i + 1]) == at + RECORD_OVERHEAD + |payloads[i]| <= |data|
      && Decode(crc, data, at) == Ok(Decoded(first + i, payloads[i], RECORD_OVERHEAD + |payloads[i]|))
  {
    hide Encoded, Decode, BytesOf, SizeOf;
    var upTo := payloads[..i + 1];
    assert upTo[..i] == payloads[..i];
    PrefixBytes(crc, first, payloads, i + 1);
    LastRecord(crc, BytesOf(crc, first, payloads), first, upTo);
    DecodeEncoded(crc, BytesOf(crc, first, payloads), SizeOf(payloads[..i]), first + i, payloads[i]);
  }

  // Reading a segment of whole records from its record i on.
  lemma {:induction false} ReadWhole(crc: Checksum, first: nat, payloads: seq<Payload>, i: nat, start: nat,
                                     go: Callback, got: seq<Record>)
    requires StorableAll(first, payloads) && i <= |payloads|
    ensures SizeOf(payloads[..i]) <= SizeOf(payloads)
    ensures ReadSegment(crc, BytesOf(crc, first, payloads), SizeOf(payloads[..i]), start, go, got)
            == Deliver(NumberedFrom(first + i, payloads[i..], start), go, got)
    decreases |payloads| - i
  {
    hide Encoded, Decode, BytesOf, SizeOf, NumberedFrom;
    assert payloads[..|payloads|] == payloads;
    SizeMonotone(payloads, i, |payloads|);
    if i == |payloads| {
      assert payloads[i..] == [];
      NumberedNone(first + i, start);
    } else {
      RecordAt(crc, first, payloads, i);
      NumberedCons(first + i, payloads[i..], start);
      assert payloads[i..][1..] == payloads[i + 1..];
      var rest := NumberedFrom(first + i + 1, payloads[i + 1..], start);
      if first + i < start {
        ReadWhole(crc, first, payloads, i + 1, start, go, got);
        assert [] + rest == rest;
      } else {
        ReadWhole(crc, first, payloads, i + 1, start, go, got + [(first + i, payloads[i])]);
        assert ([(first + i, payloads[i])] + rest)[1..] == rest;
      }
    }
  }

  lemma NumberedCons(first: nat, payloads: seq<Payload>, start: nat)
    requires payloads != []
    ensures NumberedFrom(first, payloads, start)
            == (if first >= start then [(first, payloads[0])] else []) + NumberedFrom(first + 1, payloads[1..], start)
  {
  }

  lemma ReadOne(crc: Checksum, first: nat, payloads: seq<Payload>, start: nat, go: Callback, got: seq<Record>)
    requires StorableAll(first, payloads)
    ensures ReadSegment(crc, BytesOf(crc, first, payloads), 0, start, go, got)
            == Deliver(NumberedFrom(first, payloads, start), go, got)
  {
    ReadWhole(crc, first, payloads, 0, start, go, got);
    assert payloads[0..] == payloads;
  }

  // All payloads from chunk i on.
  function FlatFrom(chunks: seq<Chunk>, i: nat): seq<Payload>
    requires i <= |chunks|
    decreases |chunks| - i
  {
    if i == |chunks| then [] else chunks[i].payloads + FlatFrom(chunks, i + 1)
  }

  lemma {:induction false} FlatSplits(chunks: seq<Chunk>, i: nat)
    requires i <= |chunks|
    ensures Flat(chunks) == Flat(chunks[..i]) + FlatFrom(chunks, i)
    decreases |chunks| - i
  {
    if i == |chunks| {
      assert chunks[..i] == chunks;
    } else {
      FlatSplits(chunks, i + 1);
      assert chunks[..i + 1][..i] == chunks[..i];
    }
  }

  lemma {:induction false} ReadChunks(crc: Checksum, segments: seq<Segment>, chunks: seq<Chunk>, i: nat, start: nat,
                                      go: Callback, got: seq<Record>)
    requires Contiguous(chunks) && StorableLog(chunks) && Holds(crc, segments, chunks) && i < |chunks|
    ensures ReadSegments(crc, segments, i, start, go, got)
            == Deliver(NumberedFrom(chunks[i].first, FlatFrom(chunks, i), start), go, got)
    decreases |chunks| - i
  {
    hide ReadSegment, NumberedFrom, BytesOf;
    var c := chunks[i];
    ReadOne(crc, c.first, c.payloads, start, go, got);
    NumberedConcat(c.first, c.payloads, FlatFrom(chunks, i + 1), start);
    DeliverConcat(NumberedFrom(c.first, c.payloads, start), NumberedFrom(c.Next(), FlatFrom(chunks, i + 1), start),
                  go, got);
    var one := ReadSegment(crc, segments[i].1, 0, start, go, got);
    if i + 1 < |chunks| {
      if one.Reading? { ReadChunks(crc, segments, chunks, i + 1, start, go, one.got); }
    } else {
      NumberedNone(c.Next(), start);
    }
  }

  lemma NumberedNone(first: nat, start: nat)
    ensures NumberedFrom(first, [], start) == []
  {
  }

  // Reading from any number, started at the segment the search finds, delivers
  // exactly the records of that number and above, in order.
  lemma ReadsExactly(crc: Checksum, segments: seq<Segment>, chunks: seq<Chunk>, i: nat, start: nat, go: Callback)
    requires Contiguous(chunks) && StorableLog(chunks) && Holds(crc, segments, chunks)
    requires StartsAt(segments, start, i)
    ensures ReadSegments(crc, segments, i, start, go, []) == Deliver(NumberedFrom(0, Flat(chunks), start), go, [])
  {
    BeforeStart(crc, segments, chunks, i, start);
    ReadChunks(crc, segments, chunks, i, start, go, []);
    hide *;
    FlatSplits(chunks, i);
    NumberedSuffix(Flat(chunks[..i]), FlatFrom(chunks, i), start);
  }

  lemma NumberedSuffix(a: seq<Payload>, b: seq<Payload>, start: nat)
    requires a == [] || |a| <= start
    ensures NumberedFrom(0, a + b, start) == NumberedFrom(|a|, b, start)
  {
    hide *;
    if a == [] {
      assert a + b == b;
    } else {
      NumberedConcat(0, a, b, start);
      NumberedBelow(0, a, start);
      NothingBefore(NumberedFrom(|a|, b, start));
    }
  }

  lemma NothingBefore<T>(rest: seq<T>)
    ensures [] + rest == rest
  {
  }

  // The segments before the one found hold exactly the records numbered below
  // its first, none of them asked for.
  lemma BeforeStart(crc: Checksum, segments: seq<Segment>, chunks: seq<Chunk>, i: nat, start: nat)
    requires Contiguous(chunks) && Holds(crc, segments, chunks) && StartsAt(segments, start, i)
    ensures i < |chunks| && |Flat(chunks[..i])| == chunks[i].first && (i > 0 ==> chunks[i].first <= start)
    ensures i == 0 ==> Flat(chunks[..i]) == []
  {
    hide BytesOf, Flat;
    var before := chunks[..i];
    assert Contiguous(before) by { assert forall j :: 0 <= j < i ==> before[j] == chunks[j]; }
    FlatCounts(before);
    if i > 0 {
      assert before[i - 1] == chunks[i - 1] && chunks[i - 1 + 1].first == chunks[i - 1].Next();
    }
  }

  // ── Damage ────────────────────────────────────────────────────────────

  // A segment in which one record's payload was changed, so that the checksum
  // shows it: the scan reports that record, and recovery a corrupt log.
  lemma DamageIsReported(crc: Checksum, segments: seq<Segment>, i: nat, first: nat, payloads: seq<Payload>,
                         payload: Payload, damaged: Payload, tail: seq<Byte>)
    requires i < |segments| && StorableAll(first, payloads) && Storable(first + |payloads|, payload)
    requires |damaged| == |payload| && crc(first + |payloads|, damaged) != crc(first + |payloads|, payload)
    requires segments[i].1 == BytesOf(crc, first, payloads) + (Damaged(crc, first + |payloads|, payload,
        damaged) + tail)
    ensures RecoverFrom(crc, segments, i, first) == Err(Corrupt(first + |payloads|))
  {
    hide Decode, BytesOf, SizeOf, Damaged, StorableAll;
    var data, at := segments[i].1, SizeOf(payloads);
    var record := Damaged(crc, first + |payloads|, payload, damaged);
    DamagedSize(crc, first + |payloads|, payload, damaged);
    assert data[at..] == record + tail;
    ScanWhole(crc, data, first, payloads);
    DecodeDamaged(crc, data, at, first + |payloads|, payload, damaged);
  }

  lemma DamagedSize(crc: Checksum, sequence: nat, payload: Payload, damaged: Payload)
    ensures |Damaged(crc, sequence, payload, damaged)| == RECORD_OVERHEAD + |damaged|
  {
  }
}
