// The log writer: opens (recovering from a torn tail), appends, rotates,
// flushes. Its contract is stated on the log its files hold.
module WalWriters {
  import opened Common
  import opened Bytes
  import opened WalSegment
  import opened WalLog
  import opened WalFiles

  // The segment files of a log.
  function SegmentsOf(crc: Checksum, chunks: seq<Chunk>): (r: seq<Segment>)
    ensures |r| == |chunks|
    ensures forall i :: 0 <= i < |chunks| ==> r[i] == (chunks[i].first, BytesOf(crc, chunks[i].first,
        chunks[i].payloads))
  {
    if chunks == [] then []
    else
      var c := chunks[|chunks| - 1];
      SegmentsOf(crc, chunks[..|chunks| - 1]) + [(c.first, BytesOf(crc, c.first, c.payloads))]
  }

  // A directory that holds exactly a log.
  ghost predicate Stores(crc: Checksum, files: Files, chunks: seq<Chunk>) {
    Contiguous(chunks) && StorableLog(chunks) && Lists(SegmentsOf(crc, chunks), files)
  }

  // A directory that holds a log whose last segment was cut at byte k.
  ghost predicate StoresCut(crc: Checksum, files: Files, chunks: seq<Chunk>, k: nat) {
    && chunks != [] && Contiguous(chunks) && StorableLog(chunks)
    && var last := chunks[|chunks| - 1];
       var bytes := BytesOf(crc, last.first, last.payloads);
       && k <= |bytes|
       && Lists(SegmentsOf(crc, chunks)[|chunks| - 1 := (last.first, bytes[..k])], files)
  }

  class WalWriter {
    const crc: Checksum
    const disk: WalDirectory
    const segmentSize: nat
    const flushEveryN: nat
    var currentSegmentFirstSeq: nat
    var currentSegmentBytes: nat
    var nextSequence: nat
    var recordsSinceFlush: nat
    ghost var chunks: seq<Chunk>

    // The files hold the log, and the fields agree with its last segment. What
    // is not yet flushed is in that segment.
    ghost predicate Tracks()
      reads this, disk
    {
      && Stores(crc, disk.files, chunks) && chunks != []
      && nextSequence == Count(chunks)
      && var last := chunks[|chunks| - 1];
         && currentSegmentFirstSeq == last.first
         && currentSegmentBytes == SizeOf(last.payloads)
         && recordsSinceFlush <= |last.payloads|
    }

    // Between calls, fewer than flushEveryN records are not yet flushed.
    ghost predicate Valid()
      reads this, disk
    {
      Tracks() && (recordsSinceFlush == 0 || recordsSinceFlush < flushEveryN)
    }

    constructor (crc: Checksum, disk: WalDirectory, segmentSize: nat, flushEveryN: nat, first: nat, bytes: nat,
                 next: nat, ghost chunks: seq<Chunk>)
      ensures this.crc == crc && this.disk == disk
      ensures this.segmentSize == segmentSize && this.flushEveryN == flushEveryN
      ensures currentSegmentFirstSeq == first && currentSegmentBytes == bytes && nextSequence == next
      ensures recordsSinceFlush == 0 && this.chunks == chunks
    {
      this.crc, this.disk, this.segmentSize, this.flushEveryN := crc, disk, segmentSize, flushEveryN;
      currentSegmentFirstSeq, currentSegmentBytes, nextSequence, recordsSinceFlush := first, bytes, next, 0;
      this.chunks := chunks;
    }

    // Open a log directory. It fails exactly when recovery does; on a directory
    // that is empty, or holds `log` with the last segment cut at byte `k`, it
    // does not fail, and the log it continues is what survived.
    static method Open(crc: Checksum, disk: WalDirectory, segmentSize: nat, flushEveryN: nat, ghost log: seq<Chunk>,
                       ghost k: nat)
      returns (r: Result<WalWriter, WalError>)
      modifies disk
      ensures forall segments :: Lists(segments, old(disk.files)) ==>
                (r.Err? <==> RecoverFrom(crc, segments, 0, 0).Err?)
      ensures r.Ok? ==> fresh(r.value) && r.value.crc == crc && r.value.disk == disk && r.value.recordsSinceFlush == 0
      ensures old(disk.files) == map[] ==> r.Ok? && r.value.Valid() && Flat(r.value.chunks) == []
      ensures StoresCut(crc, old(disk.files), log, k) ==>
                log != [] && r.Ok? && r.value.Valid() && Flat(r.value.chunks) == Flat(AfterCrash(log, k))
    {
      hide Stores, StoresCut, BytesOf, SizeOf, Lists, RecoverFrom;
      CutNotEmpty(crc, disk.files, log, k);
      ghost var whole: Option<seq<Chunk>> := None;
      if disk.files == map[] {
        whole := Some([]);
      } else if StoresCut(crc, disk.files, log, k) {
        whole := Some(AfterCrash(log, k));
      }
      var segments := disk.ListSegments();
      ListingsAgree(segments, disk.files);
      var state := RecoverAndTruncate(crc, disk, segments, log, k);
      if state.Err? { return Err(state.error); }
      var (next, _) := state.value;
      var w := Resume(crc, disk, segmentSize, flushEveryN, next,
                      if |segments| > 0 then Some(segments[|segments| - 1].0) else None, whole);
      return Ok(w);
    }

    // Recover the next number and cut off a torn tail.
    static method RecoverAndTruncate(crc: Checksum, disk: WalDirectory, segments: seq<Segment>, ghost log: seq<Chunk>,
                                     ghost k: nat)
      returns (r: Recovery)
      requires Lists(segments, disk.files)
      modifies disk
      ensures r == RecoverFrom(crc, segments, 0, 0)
      ensures segments != [] ==> segments[|segments| - 1].0 in disk.files
      ensures old(disk.files) == map[] ==> r == Ok((0, None)) && segments == [] && Stores(crc, disk.files, [])
      ensures StoresCut(crc, old(disk.files), log, k) ==>
                && log != [] && Stores(crc, disk.files, AfterCrash(log, k))
                && r.Ok? && r.value.0 == Count(AfterCrash(log, k))
                && segments != [] && segments[|segments| - 1].0 == log[|log| - 1].first
    {
      hide Stores, StoresCut, BytesOf, SizeOf, Lists, RecoverFrom;
      CutNotEmpty(crc, disk.files, log, k);
      if disk.files == map[] {
        NothingStored(crc, disk.files, segments);
        NothingRecovered(crc);
      } else if StoresCut(crc, disk.files, log, k) {
        OpenFinds(crc, disk.files, segments, log, k);
        CutStores(crc, disk.files, log, k);
      }
      if segments != [] { LastListed(segments, disk.files); }
      r := RecoverState(crc, segments);
      if r.Ok? && r.value.1.Some? {
        disk.SetLength(r.value.1.value.0, r.value.1.value.1);
      }
    }

    // Go on in the last segment, or in a new one if it is full or missing.
    static method Resume(crc: Checksum, disk: WalDirectory, segmentSize: nat, flushEveryN: nat, next: nat,
                         lastFirst: Option<nat>, ghost whole: Option<seq<Chunk>>)
      returns (w: WalWriter)
      requires lastFirst.Some? ==> lastFirst.value in disk.files
      requires whole.Some? ==>
                 && Stores(crc, disk.files, whole.value) && next == Count(whole.value)
                 && lastFirst == if whole.value == [] then None else Some(whole.value[|whole.value| - 1].first)
      modifies disk
      ensures fresh(w) && w.crc == crc && w.disk == disk && w.recordsSinceFlush == 0
      ensures whole.Some? ==> w.Valid() && Flat(w.chunks) == Flat(whole.value)
    {
      hide Stores, BytesOf, SizeOf, Lists, Flat;
      var first, bytes: nat := 0, 0;
      if lastFirst.Some? {
        first := lastFirst.value;
        bytes := |disk.files[first]|;
        if bytes >= segmentSize {
          first, bytes := next, 0;
        }
      }
      ghost var current := if whole.Some? then whole.value else [];
      if whole.Some? {
        StoredNames(crc, disk.files, whole.value);
        NoBytes([]);
        if first !in disk.files {
          OpenedStores(crc, disk.files, whole.value);
          current := whole.value + [Chunk(first, [])];
        }
      }
      disk.OpenSegment(first);
      w := new WalWriter(crc, disk, segmentSize, flushEveryN, first, bytes, next, current);
    }

    // Scan all segments for the next sequence number and a torn tail.
    static method RecoverState(crc: Checksum, segments: seq<Segment>) returns (r: Recovery)
      ensures r == RecoverFrom(crc, segments, 0, 0)
    {
      var next: nat := 0;
      for i := 0 to |segments|
        invariant RecoverFrom(crc, segments, 0, 0) == RecoverFrom(crc, segments, i, next)
      {
        hide Scan;
        var end := ScanRecords(crc, segments[i].1, next);
        match end {
          case AtEnd(n) =>
            next := n;
          case Torn(n, offset) =>
            if i == |segments| - 1 {
              return Ok((n, Some((segments[i].0, offset))));
            }
            return Err(Corrupt(n));
          case Gap(expected, found) =>
            return Err(SequenceGap(expected, found));
          case Bad(s) =>
            return Err(Corrupt(s));
        }
      }
      return Ok((next, None));
    }

    // The inner loop, over the records of one segment.
    static method ScanRecords(crc: Checksum, data: seq<Byte>, first: nat) returns (r: ScanEnd)
      ensures r == Scan(crc, data, 0, first)
    {
      hide Decode;
      var next: nat := first;
      var offset: nat := 0;
      while offset < |data|
        invariant offset <= |data|
        invariant Scan(crc, data, 0, first) == Scan(crc, data, offset, next)
        decreases |data| - offset
      {
        match Decode(crc, data, offset) {
          case Ok(d) =>
            if d.sequence != next {
              return Gap(next, d.sequence);
            }
            next := d.sequence + 1;
            offset := offset + d.consumed;
          case Err(Incomplete) =>
            return Torn(next, offset);
          case Err(CrcMismatch(s)) =>
            return Bad(s);
        }
      }
      return AtEnd(next);
    }

    // Append a record; returns its sequence number.
    method Append(payload: Payload) returns (r: Result<nat, WalError>)
      requires Valid() && nextSequence < U64_LIMIT
      modifies this, disk
      ensures Valid()
      ensures |payload| > MAX_PAYLOAD_SIZE ==> r == Err(PayloadTooLarge(|payload|)) && Flat(chunks) == old(Flat(chunks))
      ensures |payload| <= MAX_PAYLOAD_SIZE ==>
                r == Ok(old(|Flat(chunks)|)) && Flat(chunks) == old(Flat(chunks)) + [payload]
      ensures |payload| <= MAX_PAYLOAD_SIZE ==>
                && (var last := chunks[|chunks| - 1].payloads; |last| == 1 || SizeOf(last) <= segmentSize)
                && (|chunks| > |old(chunks)| <==>
                      var was := SizeOf(old(chunks)[|old(chunks)| - 1].payloads);
                      was > 0 && was + RECORD_OVERHEAD + |payload| > segmentSize)
    {
      hide Stores, SizeOf, Flat, Encoded, Contiguous, StorableLog;
      StoredCounts(crc, disk.files, chunks);
      if |payload| > MAX_PAYLOAD_SIZE { return Err(PayloadTooLarge(|payload|)); }
      var recordSize := RECORD_OVERHEAD + |payload|;
      if currentSegmentBytes > 0 && currentSegmentBytes + recordSize > segmentSize {
        Flush();
        RotateSegment();
      }
      ghost var open := chunks[|chunks| - 1].payloads;
      NoBytes(open);
      MoreBytes(open, payload);
      var seqNo := nextSequence;
      var buf := new Byte[recordSize](_ => 0);
      EncodeRecord(crc, buf, seqNo, payload);
      assert buf[..recordSize] == buf[..];
      WriteRecord(buf[..], payload);
      if recordsSinceFlush >= flushEveryN {
        Flush();
      }
      return Ok(seqNo);
    }

    // The bytes of one record go to the current segment.
    method WriteRecord(bytes: seq<Byte>, payload: Payload)
      requires Tracks() && nextSequence < U64_LIMIT && |payload| <= MAX_PAYLOAD_SIZE
      requires bytes == Encoded(crc, nextSequence, payload)
      modifies this, disk
      ensures Tracks() && Flat(chunks) == old(Flat(chunks)) + [payload]
      ensures chunks == AppendedTo(old(chunks), payload)
      ensures recordsSinceFlush == old(recordsSinceFlush) + 1
    {
      hide BytesOf, Lists, Encoded, Contiguous, StorableLog, Stores, Flat, SizeOf;
      StoresLog(crc, disk.files, chunks);
      AppendStores(crc, disk.files, chunks, payload);
      AppendedLog(chunks, payload);
      MoreBytes(chunks[|chunks| - 1].payloads, payload);
      disk.Write(currentSegmentFirstSeq, bytes);
      chunks := AppendedTo(chunks, payload);
      currentSegmentBytes := currentSegmentBytes + |bytes|;
      nextSequence := nextSequence + 1;
      recordsSinceFlush := recordsSinceFlush + 1;
    }

    // Everything appended so far is on disk.
    method Flush()
      modifies this`recordsSinceFlush
      ensures recordsSinceFlush == 0
    {
      recordsSinceFlush := 0;
    }

    // Go on in a new segment, named after the next record.
    method RotateSegment()
      requires Tracks() && currentSegmentBytes > 0 && recordsSinceFlush == 0
      modifies this, disk
      ensures Tracks() && Flat(chunks) == old(Flat(chunks))
      ensures chunks == old(chunks) + [Chunk(old(nextSequence), [])]
      ensures currentSegmentBytes == 0 && nextSequence == old(nextSequence) && recordsSinceFlush == 0
    {
      hide Stores, BytesOf, SizeOf, Lists, Flat;
      NoBytes(chunks[|chunks| - 1].payloads);
      NoBytes([]);
      OpenedStores(crc, disk.files, chunks);
      disk.OpenSegment(nextSequence);
      chunks := chunks + [Chunk(nextSequence, [])];
      currentSegmentFirstSeq := nextSequence;
      currentSegmentBytes := 0;
    }
  }

  // ── Files and logs ────────────────────────────────────────────────────

  function AppendedTo(chunks: seq<Chunk>, payload: Payload): seq<Chunk>
    requires chunks != []
  {
    var n := |chunks| - 1;
    chunks[n := chunks[n].(payloads := chunks[n].payloads + [payload])]
  }

  lemma {:induction false} ListsSetLast(segments: seq<Segment>, files: Files, bytes: seq<Byte>)
    requires Lists(segments, files) && segments != []
    ensures var n := |segments| - 1;
      Lists(segments[n := (segments[n].0, bytes)], files[segments[n].0 := bytes])
  {
    var n := |segments| - 1;
    var after := segments[n := (segments[n].0, bytes)];
    forall f ensures f in Names(after) <==> f in Names(segments) {
      if f in Names(segments) {
        var i :| 0 <= i < |segments| && segments[i].0 == f;
        assert after[i].0 == f;
      }
    }
    assert segments[n].0 in Names(segments);
  }

  lemma {:induction false} ListsSnoc(segments: seq<Segment>, files: Files, first: nat)
    requires Lists(segments, files) && forall f :: f in files ==> f < first
    ensures Lists(segments + [(first, [])], files[first := []])
  {
    var after := segments + [(first, [])];
    forall f ensures f in Names(after) <==> f in Names(segments) || f == first {
      if f in Names(segments) {
        var i :| 0 <= i < |segments| && segments[i].0 == f;
        assert after[i].0 == f;
      }
      assert after[|segments|].0 == first;
    }
    forall i | 0 <= i < |segments| ensures segments[i].0 < first {
      assert segments[i].0 in files;
    }
  }

  lemma {:induction false} StoresLast(crc: Checksum, files: Files, chunks: seq<Chunk>)
    requires Stores(crc, files, chunks) && chunks != []
    ensures var last := chunks[|chunks| - 1];
      && last.first in files && files[last.first] == BytesOf(crc, last.first, last.payloads)
      && forall f :: f in files ==> f <= last.first
  {
    hide BytesOf;
    NamesInit(SegmentsOf(crc, chunks), files);
  }

  // Cutting the last file of a log back to whole records leaves a log.
  lemma {:induction false} CutStores(crc: Checksum, files: Files, log: seq<Chunk>, k: nat)
    requires StoresCut(crc, files, log, k)
    ensures var last := log[|log| - 1];
      var size := SizeOf(last.payloads[..Whole(last.payloads, k)]);
      && last.first in files && |files[last.first]| == k && size <= k
      && Stores(crc, files[last.first := files[last.first][..size]], AfterCrash(log, k))
      && (size == k ==> Stores(crc, files, AfterCrash(log, k)))
  {
    hide BytesOf, SizeOf, Whole, Lists;
    var n := |log| - 1;
    var last := log[n];
    var cut := BytesOf(crc, last.first, last.payloads)[..k];
    var segments := SegmentsOf(crc, log)[n := (last.first, cut)];
    var size := SizeOf(last.payloads[..Whole(last.payloads, k)]);
    LastListed(segments, files);
    CutSegment(crc, last.first, last.payloads, k);
    AfterCrashIsLog(log, k);
    ListsSetLast(segments, files, cut[..size]);
    var after := AfterCrash(log, k);
    assert after[n].payloads == last.payloads[..Whole(last.payloads, k)];
    assert BytesOf(crc, last.first, after[n].payloads) == cut[..size];
    assert segments[n := (last.first, cut[..size])] == SegmentsOf(crc, after);
    if size == k {
      assert cut[..size] == cut;
      assert files[last.first := cut] == files;
    }
  }

  lemma {:induction false} LastListed(segments: seq<Segment>, files: Files)
    requires Lists(segments, files) && segments != []
    ensures segments[|segments| - 1].0 in files && files[segments[|segments| - 1].0] == segments[|segments| - 1].1
  {
  }

  // What opening finds in a directory after a crash.
  lemma {:induction false} OpenFinds(crc: Checksum, files: Files, segments: seq<Segment>, log: seq<Chunk>, k: nat)
    requires StoresCut(crc, files, log, k) && Lists(segments, files)
    ensures |segments| == |log| && segments[|log| - 1].0 == log[|log| - 1].first
    ensures var last := log[|log| - 1];
      var j := Whole(last.payloads, k);
      var size := SizeOf(last.payloads[..j]);
      && RecoverFrom(crc, segments, 0, 0) == Ok((last.first + j, if size == k then None else Some((last.first, size))))
      && Count(AfterCrash(log, k)) == last.first + j
  {
    hide BytesOf, SizeOf, Whole, Lists, RecoverFrom;
    var last := log[|log| - 1];
    var cut := BytesOf(crc, last.first, last.payloads)[..k];
    ListsUnique(segments, SegmentsOf(crc, log)[|log| - 1 := (last.first, cut)], files);
    CrashRecovers(crc, segments, log, k);
  }

  lemma {:induction false} OpenedStores(crc: Checksum, files: Files, chunks: seq<Chunk>)
    requires Stores(crc, files, chunks) && (chunks != [] ==> chunks[|chunks| - 1].payloads != [])
    ensures Count(chunks) !in files
    ensures Stores(crc, files[Count(chunks) := []], chunks + [Chunk(Count(chunks), [])])
    ensures Flat(chunks + [Chunk(Count(chunks), [])]) == Flat(chunks)
  {
    hide BytesOf, Lists;
    var first := Count(chunks);
    if chunks != [] {
      StoresLast(crc, files, chunks);
    } else {
      NoFiles(files);
    }
    ListsSnoc(SegmentsOf(crc, chunks), files, first);
    var c := Chunk(first, []);
    EmptyBytes(crc, first);
    assert (chunks + [c])[..|chunks|] == chunks;
    assert Flat(chunks) + [] == Flat(chunks);
  }

  lemma {:induction false} StoresLog(crc: Checksum, files: Files, chunks: seq<Chunk>)
    requires Stores(crc, files, chunks)
    ensures Contiguous(chunks) && StorableLog(chunks)
  {
  }

  lemma {:induction false} StoredCounts(crc: Checksum, files: Files, chunks: seq<Chunk>)
    requires Stores(crc, files, chunks)
    ensures |Flat(chunks)| == Count(chunks)
  {
    FlatCounts(chunks);
  }

  // Every stored name is at most the last; that one holds the last bytes.
  lemma {:induction false} StoredNames(crc: Checksum, files: Files, chunks: seq<Chunk>)
    requires Stores(crc, files, chunks)
    ensures chunks == [] ==> files == map[]
    ensures chunks != [] ==>
              var last := chunks[|chunks| - 1];
              && last.first in files && |files[last.first]| == SizeOf(last.payloads)
              && (Count(chunks) in files ==> last.payloads == [])
  {
    if chunks == [] {
      NoFiles(files);
    } else {
      StoresLast(crc, files, chunks);
    }
  }

  lemma {:induction false} CutNotEmpty(crc: Checksum, files: Files, log: seq<Chunk>, k: nat)
    ensures StoresCut(crc, files, log, k) ==> log != [] && files != map[]
  {
    if StoresCut(crc, files, log, k) {
      CutStores(crc, files, log, k);
    }
  }

  lemma {:induction false} ListingsAgree(segments: seq<Segment>, files: Files)
    requires Lists(segments, files)
    ensures forall other :: Lists(other, files) ==> other == segments
  {
    forall other | Lists(other, files) ensures other == segments {
      ListsUnique(other, segments, files);
    }
  }

  lemma {:induction false} NothingRecovered(crc: Checksum)
    ensures RecoverFrom(crc, [], 0, 0) == Ok((0, None))
  {
  }

  lemma {:induction false} NoBytes(payloads: seq<Payload>)
    ensures SizeOf(payloads) == 0 <==> payloads == []
  {
  }

  lemma {:induction false} MoreBytes(payloads: seq<Payload>, payload: Payload)
    ensures SizeOf(payloads + [payload]) == SizeOf(payloads) + RECORD_OVERHEAD + |payload|
  {
    assert (payloads + [payload])[..|payloads|] == payloads;
  }

  lemma {:induction false} NothingStored(crc: Checksum, files: Files, segments: seq<Segment>)
    requires files == map[] && Lists(segments, files)
    ensures segments == [] && Stores(crc, files, [])
  {
    assert Lists([], files);
    ListsUnique(segments, [], files);
  }

  lemma {:induction false} NoFiles(files: Files)
    requires Lists([], files)
    ensures files == map[]
  {
    assert files.Keys == {};
  }

  lemma {:induction false} EmptyBytes(crc: Checksum, first: nat)
    ensures BytesOf(crc, first, []) == []
  {
  }

  lemma {:induction false} AppendedLog(chunks: seq<Chunk>, payload: Payload)
    requires Contiguous(chunks) && StorableLog(chunks) && chunks != [] && Storable(Count(chunks), payload)
    ensures Contiguous(AppendedTo(chunks, payload)) && StorableLog(AppendedTo(chunks, payload))
    ensures Count(AppendedTo(chunks, payload)) == Count(chunks) + 1
    ensures Flat(AppendedTo(chunks, payload)) == Flat(chunks) + [payload]
  {
    var n := |chunks| - 1;
    var last, after := chunks[n], AppendedTo(chunks, payload);
    assert after[..n] == chunks[..n];
    assert Flat(chunks[..n]) + (last.payloads + [payload]) == Flat(chunks[..n]) + last.payloads + [payload];
    forall i | 0 <= i < |after| ensures StorableAll(after[i].first, after[i].payloads) {
      assert StorableAll(chunks[i].first, chunks[i].payloads);
    }
  }

  lemma {:induction false} AppendedSegments(crc: Checksum, chunks: seq<Chunk>, payload: Payload)
    requires chunks != []
    ensures var n := |chunks| - 1; var last := chunks[n];
      SegmentsOf(crc, AppendedTo(chunks, payload))
      == SegmentsOf(crc, chunks)[n := (last.first, BytesOf(crc, last.first, last.payloads)
                                                   + Encoded(crc, Count(chunks), payload))]
  {
    hide BytesOf, Encoded;
    var last := chunks[|chunks| - 1];
    var more := last.payloads + [payload];
    assert more[..|last.payloads|] == last.payloads;
    BytesSnoc(crc, last.first, more);
  }

  lemma {:induction false} AppendStores(crc: Checksum, files: Files, chunks: seq<Chunk>, payload: Payload)
    requires Stores(crc, files, chunks) && chunks != [] && Storable(Count(chunks), payload)
    ensures var last := chunks[|chunks| - 1];
      && last.first in files
      && Stores(crc, files[last.first := files[last.first] + Encoded(crc, Count(chunks), payload)],
                AppendedTo(chunks, payload))
  {
    hide BytesOf, Lists, Encoded, AppendedTo, Contiguous, StorableLog;
    var last := chunks[|chunks| - 1];
    StoresLast(crc, files, chunks);
    AppendedLog(chunks, payload);
    AppendedSegments(crc, chunks, payload);
    ListsSetLast(SegmentsOf(crc, chunks), files,
                 BytesOf(crc, last.first, last.payloads) + Encoded(crc, Count(chunks), payload));
  }
}
